/** The feedback handlers' decisions: a rating is accepted once per
    appointment, only from the appointment's customer, only once the job is
    Completed, and only in the range 1 to 5. */
module Feedbacks {
  import opened Common
  import opened Seqs
  import opened Records
  import opened AppointmentModel

  /** The request body of `submitFeedback`; a field is None when absent. */
  datatype FeedbackRequest = FeedbackRequest(appointmentId: Option<Id>, rating: Option<int>, comment: Option<string>)

  /** Some feedback already refers to the appointment. */
  predicate HasFeedback(feedback: seq<Feedback>, appointment: Id)
  {
    exists i | 0 <= i < |feedback| :: feedback[i].appointment == appointment
  }

  /** The store-wide rules: at most one feedback per appointment, every rating in 1..5. */
  predicate OnePerAppointment(feedback: seq<Feedback>)
  {
    forall i, j | 0 <= i < j < |feedback| :: feedback[i].appointment != feedback[j].appointment
  }

  predicate RatingsInRange(feedback: seq<Feedback>)
  {
    forall i | 0 <= i < |feedback| :: 1 <= feedback[i].rating <= 5
  }

  /** The guard chain before any lookup: both fields truthy (a rating of 0
      counts as missing), then the range. */
  predicate FeedbackRequestValid(req: FeedbackRequest)
  {
    req.appointmentId.Some? && GivenNumber(req.rating) && 1 <= req.rating.value <= 5
  }

  /** `submitFeedback`: 400 for a missing field or a rating outside 1..5, 404
      for an unknown appointment, 403 for someone else's, 400 unless it is
      Completed, 400 if it already has feedback; otherwise the new feedback,
      its comment defaulting to the empty string. */
  function SubmitFeedback(appts: seq<Appointment>, feedback: seq<Feedback>, caller: Caller, req: FeedbackRequest,
                          id: Id): (r: Result<Feedback>)
    ensures !FeedbackRequestValid(req) ==> r == Err(BadRequest)
    ensures FeedbackRequestValid(req) ==>
              (r == Err(NotFound) <==> forall j | 0 <= j < |appts| :: appts[j].id != req.appointmentId.value)
    ensures r.Ok? <==>
              && FeedbackRequestValid(req)
              && Lookup(appts, AppointmentId, req.appointmentId.value).Some?
              && Lookup(appts, AppointmentId, req.appointmentId.value).value.customer == caller.id
              && Lookup(appts, AppointmentId, req.appointmentId.value).value.status == Completed
              && !HasFeedback(feedback, req.appointmentId.value)
    ensures r == Err(Forbidden) <==>
              && FeedbackRequestValid(req)
              && Lookup(appts, AppointmentId, req.appointmentId.value).Some?
              && Lookup(appts, AppointmentId, req.appointmentId.value).value.customer != caller.id
    ensures r.Ok? ==>
              && r.value.id == id && r.value.appointment == req.appointmentId.value
              && r.value.customer == caller.id && r.value.rating == req.rating.value
              && r.value.comment == (if Given(req.comment) then req.comment.value else "")
              && 1 <= r.value.rating <= 5
    ensures r.Ok? || r.error in {BadRequest, NotFound, Forbidden}
  {
    if req.appointmentId.None? || !GivenNumber(req.rating) then Err(BadRequest)
    else if req.rating.value < 1 || req.rating.value > 5 then Err(BadRequest)
    else match Lookup(appts, AppointmentId, req.appointmentId.value)
      case None => Err(NotFound)
      case Some(a) =>
        if a.customer != caller.id then Err(Forbidden)
        else if a.status != Completed then Err(BadRequest)
        else if HasFeedback(feedback, req.appointmentId.value) then Err(BadRequest)
        else Ok(Feedback(id, req.appointmentId.value, caller.id, req.rating.value, OrElse(req.comment, "")))
  }

  /** The appointment after feedback for it was accepted: only the flag changes. */
  function MarkFeedbackSubmitted(a: Appointment): (r: Appointment)
    ensures r.feedbackSubmitted
    ensures r.(feedbackSubmitted := a.feedbackSubmitted) == a
  {
    a.(feedbackSubmitted := true)
  }

  /** An accepted feedback keeps both store-wide rules. */
  lemma SubmitKeepsFeedbackRules(appts: seq<Appointment>, feedback: seq<Feedback>, caller: Caller,
                                 req: FeedbackRequest, id: Id)
    requires OnePerAppointment(feedback) && RatingsInRange(feedback)
    requires SubmitFeedback(appts, feedback, caller, req, id).Ok?
    ensures OnePerAppointment(feedback + [SubmitFeedback(appts, feedback, caller, req, id).value])
    ensures RatingsInRange(feedback + [SubmitFeedback(appts, feedback, caller, req, id).value])
  {
    var f := SubmitFeedback(appts, feedback, caller, req, id).value;
    var s := feedback + [f];
    forall i, j | 0 <= i < j < |s| ensures s[i].appointment != s[j].appointment {
      if j == |feedback| {
        assert s[i] == feedback[i];
      }
    }
  }

  /** Once feedback was accepted for an appointment, every later submission
      for it fails, whoever sends it and whatever it carries. */
  lemma SecondSubmissionRejected(appts: seq<Appointment>, feedback: seq<Feedback>, caller: Caller,
                                 req: FeedbackRequest, id: Id, other: Caller, req2: FeedbackRequest, id2: Id)
    requires SubmitFeedback(appts, feedback, caller, req, id).Ok?
    requires req2.appointmentId == req.appointmentId
    ensures SubmitFeedback(appts, feedback + [SubmitFeedback(appts, feedback, caller, req, id).value],
                           other, req2, id2).Err?
  {
    var f := SubmitFeedback(appts, feedback, caller, req, id).value;
    var s := feedback + [f];
    assert s[|feedback|].appointment == req.appointmentId.value;
    assert HasFeedback(s, req.appointmentId.value);
  }

  /** `getMyFeedback`: exactly the caller's feedback, newest first. */
  function MyFeedback(feedback: seq<Feedback>, caller: Caller): (r: seq<Feedback>)
    ensures forall f :: f in r <==> f in feedback && f.customer == caller.id
    ensures NewestFirst(r, Filter(feedback, (f: Feedback) => f.customer == caller.id))
  {
    var mine := Filter(feedback, (f: Feedback) => f.customer == caller.id);
    ReverseMembers(mine);
    Reverse(mine)
  }
}
