/** The purchase-request control beside a material: a status badge for an
    existing request, nothing for users who may not request, and otherwise a
    button opening a dialog that inserts a pending request. */
module MaterialRequest {
  import opened Optional
  import Text

  datatype BadgeConfig = BadgeConfig(color: string, caption: string)

  const PendingBadge: BadgeConfig := BadgeConfig("secondary", "Request Pending")
  const ApprovedBadge: BadgeConfig := BadgeConfig("default", "Approved")
  const RejectedBadge: BadgeConfig := BadgeConfig("destructive", "Rejected")

  /** `statusConfig[status] || statusConfig.pending`. */
  function BadgeFor(status: string): (r: BadgeConfig)
    ensures status == "approved" ==> r == ApprovedBadge
    ensures status == "rejected" ==> r == RejectedBadge
    ensures status != "approved" && status != "rejected" ==> r == PendingBadge
  {
    match status
    case "pending" => PendingBadge
    case "approved" => ApprovedBadge
    case "rejected" => RejectedBadge
    case _ => PendingBadge
  }

  datatype Control = Badge(config: BadgeConfig) | Nothing | RequestButton

  /** What the component renders. */
  function RenderControl(existingRequestStatus: Option<string>, canCreateRequests: bool): (r: Control)
    ensures TruthyString(existingRequestStatus) ==> r == Badge(BadgeFor(existingRequestStatus.value))
    ensures !TruthyString(existingRequestStatus) && !canCreateRequests ==> r == Nothing
    ensures !TruthyString(existingRequestStatus) && canCreateRequests ==> r == RequestButton
  {
    if TruthyString(existingRequestStatus) then Badge(BadgeFor(existingRequestStatus.value))
    else if !canCreateRequests then Nothing
    else RequestButton
  }

  /** The request button is offered exactly to users who may create requests
      and only while no request exists; a badge never depends on permission. */
  lemma ButtonOnlyWithoutRequest(status: Option<string>, can: bool)
    ensures RenderControl(status, can) == RequestButton <==> can && !TruthyString(status)
    ensures RenderControl(status, can).Badge? ==> RenderControl(status, !can) == RenderControl(status, can)
    ensures RenderControl(status, can).Badge? ==> RenderControl(status, can).config in {PendingBadge, ApprovedBadge, RejectedBadge}
  {
  }

  /** The row inserted into `purchase_requests`. */
  datatype PurchaseRequest = PurchaseRequest(materialId: string, requestedBy: string, notes: Option<string>, status: string)

  /** `notes.trim() || null`. */
  function NotesPayload(notes: string): (r: Option<string>)
    ensures r.None? <==> Text.Blank(notes)
    ensures r.Some? ==> r.value == Text.Trim(notes) && r.value != ""
  {
    Text.TrimEmptyIffBlank(notes);
    var t := Text.Trim(notes);
    if t == "" then None else Some(t)
  }

  /** The dialog's state. */
  datatype Dialog = Dialog(open: bool, notes: string, submitting: bool)

  /** Why a submission did not insert a request. */
  datatype Failure = NotAuthenticated | ProfileNotFound | InsertFailed

  /** What a submission did: the request it inserted (if the insert was
      reached), the error it reported, and whether the page reloads. */
  datatype Submission = Submission(dialog: Dialog, inserted: Option<PurchaseRequest>, error: Option<Failure>, reload: bool)

  /** `handleSubmitRequest`. `user` and `profileId` are what the auth and
      profile lookups returned; `insertOk` is the insert's outcome. */
  function SubmitRequest(d: Dialog, materialId: string, user: Option<string>, profileId: Option<string>, insertOk: bool): (r: Submission)
    ensures !r.dialog.submitting
    ensures r.inserted.Some? <==> user.Some? && profileId.Some?
    ensures r.inserted.Some? ==> r.inserted.value == PurchaseRequest(materialId, profileId.value, NotesPayload(d.notes), "pending")
    ensures r.error.None? <==> r.inserted.Some? && insertOk
    ensures r.reload <==> r.error.None?
    ensures r.error.None? ==> !r.dialog.open && r.dialog.notes == ""
    ensures r.error.Some? ==> r.dialog.open == d.open && r.dialog.notes == d.notes
  {
    if user.None? then Submission(d.(submitting := false), None, Some(NotAuthenticated), false)
    else if profileId.None? then Submission(d.(submitting := false), None, Some(ProfileNotFound), false)
    else
      var req := PurchaseRequest(materialId, profileId.value, NotesPayload(d.notes), "pending");
      if insertOk then Submission(Dialog(false, "", false), Some(req), None, true)
      else Submission(d.(submitting := false), Some(req), Some(InsertFailed), false)
  }

  /** Every inserted request is pending, and its notes are never blank:
      either real text without surrounding white space, or null. */
  lemma InsertedRequestShape(d: Dialog, materialId: string, user: Option<string>, profileId: Option<string>, insertOk: bool)
    ensures var r := SubmitRequest(d, materialId, user, profileId, insertOk);
            r.inserted.Some? ==>
              && r.inserted.value.status == "pending"
              && (r.inserted.value.notes.Some? ==> !Text.IsWhitespace(r.inserted.value.notes.value[0]))
  {
  }

  /** A failed submission leaves the dialog open with its notes, so the user
      can retry; retrying with a good outcome then inserts the same request. */
  lemma RetryAfterFailure(d: Dialog, materialId: string, user: string, profileId: string)
    ensures var first := SubmitRequest(d, materialId, Some(user), Some(profileId), false);
            var second := SubmitRequest(first.dialog, materialId, Some(user), Some(profileId), true);
            && first.error == Some(InsertFailed)
            && second.error.None?
            && second.inserted == first.inserted
  {
  }
}
