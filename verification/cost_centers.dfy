/** Cost centres: the built-in table and the label and icon lookups that fall
    back gracefully for custom (user-typed) cost centres. */
module CostCenters {
  import opened Optional

  /** The icons the table refers to, plus `Ruler`, the custom-centre icon. */
  datatype Icon = Grid3x3 | PaintBucket | HardHat | ChefHat | Bath | Wrench | Frame | DoorOpen | Zap | Hammer | Ruler

  datatype CostCenter = CostCenter(id: string, labelText: string, icon: Icon)

  /** DEFAULT_COST_CENTERS, in table order. */
  const Defaults: seq<CostCenter> := [
    CostCenter("floor", "Floor", Grid3x3),
    CostCenter("paint", "Paint", PaintBucket),
    CostCenter("construction", "Construction", HardHat),
    CostCenter("kitchen", "Kitchen", ChefHat),
    CostCenter("bathrooms", "Bathrooms", Bath),
    CostCenter("plumbing", "Plumbing", Wrench),
    CostCenter("tiles", "Tiles", Grid3x3),
    CostCenter("windows", "Windows", Frame),
    CostCenter("doors", "Doors", DoorOpen),
    CostCenter("electricity", "Electricity", Zap),
    CostCenter("carpentry", "Carpentry", Hammer)
  ]

  /** The position `Array.prototype.find` stops at when searching for `id`
      from position `from` on: the first matching entry at or after `from`. */
  function FindFrom(table: seq<CostCenter>, id: string, from: nat): (r: Option<nat>)
    requires from <= |table|
    ensures r.None? <==> forall i :: from <= i < |table| ==> table[i].id != id
    ensures r.Some? ==>
      && from <= r.value < |table| && table[r.value].id == id
      && forall j :: from <= j < r.value ==> table[j].id != id
    decreases |table| - from
  {
    if from == |table| then None
    else if table[from].id == id then Some(from)
    else FindFrom(table, id, from + 1)
  }

  /** `Array.prototype.find` by id: the first entry whose id matches. */
  function Find(table: seq<CostCenter>, id: string): (r: Option<CostCenter>)
    ensures r.None? <==> forall i :: 0 <= i < |table| ==> table[i].id != id
    ensures r.Some? ==> r.value.id == id && r.value in table
  {
    match FindFrom(table, id, 0)
    case Some(k) => Some(table[k])
    case None => None
  }

  /** The table's ids are pairwise distinct, so a first match is the only match. */
  lemma DefaultIdsDistinct()
    ensures forall i, j :: 0 <= i < j < |Defaults| ==> Defaults[i].id != Defaults[j].id
  {
  }

  /** With distinct ids, looking up the id of any entry finds that entry. */
  lemma FindEntry(k: nat)
    requires k < |Defaults|
    ensures Find(Defaults, Defaults[k].id) == Some(Defaults[k])
  {
    DefaultIdsDistinct();
  }

  /** True for the ids of the built-in table. */
  predicate IsKnown(id: string) {
    exists k :: 0 <= k < |Defaults| && Defaults[k].id == id
  }

  /** `getCostCenterIcon`: null for a null or empty id, the table's icon for a
      known id, and `Ruler` for any other id. */
  function GetCostCenterIcon(costCenter: Option<string>): (r: Option<Icon>)
    ensures !TruthyString(costCenter) ==> r == None
    ensures TruthyString(costCenter) ==> r.Some?
    ensures forall k :: 0 <= k < |Defaults| && costCenter == Some(Defaults[k].id) ==> r == Some(Defaults[k].icon)
    ensures TruthyString(costCenter) && !IsKnown(costCenter.value) ==> r == Some(Ruler)
  {
    if !TruthyString(costCenter) then None
    else
      match Find(Defaults, costCenter.value)
      case Some(cc) =>
        DefaultIdsDistinct();
        Some(cc.icon)
      case None => Some(Ruler)
  }

  /** `getCostCenterLabel`: null for a null or empty id, the table's label for
      a known id, and the id itself for any other id. */
  function GetCostCenterLabel(costCenter: Option<string>): (r: Option<string>)
    ensures r.Some? <==> TruthyString(costCenter)
    ensures forall k :: 0 <= k < |Defaults| && costCenter == Some(Defaults[k].id) ==> r == Some(Defaults[k].labelText)
    ensures TruthyString(costCenter) && !IsKnown(costCenter.value) ==> r == costCenter
  {
    if !TruthyString(costCenter) then None
    else
      match Find(Defaults, costCenter.value)
      case Some(cc) =>
        DefaultIdsDistinct();
        Some(cc.labelText)
      case None => costCenter
  }

  /** Every label the lookup can return is non-empty, so a caller testing the
      label for truthiness sees exactly the non-empty inputs. */
  lemma LabelNeverEmpty(costCenter: Option<string>)
    ensures GetCostCenterLabel(costCenter).Some? ==> GetCostCenterLabel(costCenter).value != ""
  {
    if TruthyString(costCenter) && IsKnown(costCenter.value) {
      var k :| 0 <= k < |Defaults| && Defaults[k].id == costCenter.value;
      assert GetCostCenterLabel(costCenter) == Some(Defaults[k].labelText);
    }
  }

  /** Only custom ids get the `Ruler` icon: no table entry uses it. */
  lemma RulerMeansCustom(costCenter: Option<string>)
    ensures GetCostCenterIcon(costCenter) == Some(Ruler) <==> TruthyString(costCenter) && !IsKnown(costCenter.value)
  {
    if TruthyString(costCenter) && IsKnown(costCenter.value) {
      var k :| 0 <= k < |Defaults| && Defaults[k].id == costCenter.value;
      assert GetCostCenterIcon(costCenter) == Some(Defaults[k].icon);
    }
  }
}
