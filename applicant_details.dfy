/**
 * The recruiter's review page for one application (`ApplicationDetailsComp`):
 * the accept and decline buttons, the submit button they enable, and the
 * form fields of the status-update request it sends.
 */
module ApplicantDetails {
  import opened Wrappers
  import opened JavaText
  import opened Domain
  import ReviewerEndpoint

  /** The three state variables the buttons drive. */
  datatype Buttons = Buttons(status: ApplicationStatus, pressedAccepted: bool, pressedDenied: bool)

  datatype Click = Accept | Decline

  const Initial: Buttons := Buttons(Unchecked, false, false)

  /** `handleAccept` / `handleDecline`: set the status, flip the own flag, clear the other. */
  function Step(b: Buttons, c: Click): (r: Buttons)
    ensures r.status == ClickStatus(c)
    ensures Consistent(r)
    ensures SubmitEnabled(r) <==> (if c == Accept then !b.pressedAccepted else !b.pressedDenied)
  {
    match c
    case Accept => Buttons(Accepted, !b.pressedAccepted, false)
    case Decline => Buttons(Denied, false, !b.pressedDenied)
  }

  /** The status a button sets. */
  function ClickStatus(c: Click): ApplicationStatus
  {
    if c == Accept then Accepted else Denied
  }

  /** The state after a run of clicks, in order: the last click decides the status. */
  function Run(b: Buttons, clicks: seq<Click>): (r: Buttons)
    ensures clicks == [] ==> r == b
    ensures clicks != [] ==> r.status == ClickStatus(clicks[|clicks| - 1])
    decreases |clicks|
  {
    if clicks == [] then b else Run(Step(b, clicks[0]), clicks[1..])
  }

  /**
   * The submit button's `disabled={!isPressedAccepted && !isPressedDenied}`,
   * negated. In a consistent state an enabled submit never sends `unchecked`.
   */
  predicate SubmitEnabled(b: Buttons)
    ensures SubmitEnabled(b) && Consistent(b) ==> b.status != Unchecked
  {
    b.pressedAccepted || b.pressedDenied
  }

  /** Never both pressed, and a pressed button agrees with the status. */
  predicate Consistent(b: Buttons)
  {
    && !(b.pressedAccepted && b.pressedDenied)
    && (b.pressedAccepted ==> b.status == Accepted)
    && (b.pressedDenied ==> b.status == Denied)
  }

  /** From the initial state, no run of clicks ever presses both buttons. */
  lemma {:induction false} RunKeepsConsistent(b: Buttons, clicks: seq<Click>)
    requires Consistent(b)
    ensures Consistent(Run(b, clicks))
    ensures !(Run(b, clicks).pressedAccepted && Run(b, clicks).pressedDenied)
    decreases |clicks|
  {
    if clicks != [] {
      RunKeepsConsistent(Step(b, clicks[0]), clicks[1..]);
    }
  }

  lemma InitialConsistent()
    ensures Consistent(Initial) && !SubmitEnabled(Initial) && Initial.status == Unchecked
  {
  }

  /** When submit is enabled, the status sent is the one of the button that is pressed. */
  lemma {:induction false} EnabledSubmitSendsPressedChoice(clicks: seq<Click>)
    requires SubmitEnabled(Run(Initial, clicks))
    ensures Run(Initial, clicks).status == if Run(Initial, clicks).pressedAccepted then Accepted else Denied
  {
    RunKeepsConsistent(Initial, clicks);
  }

  /** Pressing accept twice keeps the status `accepted` but disables submit again. */
  lemma AcceptTwiceDisables(b: Buttons)
    requires !b.pressedAccepted
    ensures Run(b, [Accept, Accept]).status == Accepted
    ensures !SubmitEnabled(Run(b, [Accept, Accept]))
  {
    assert [Accept, Accept][1..] == [Accept];
    assert [Accept][1..] == [];
    assert Run(b, [Accept, Accept]) == Run(Step(b, Accept), [Accept]) == Run(Step(Step(b, Accept), Accept), []);
  }

  /**
   * The form fields of `UpdateStatus`: the application id from the route,
   * the current status, and the loaded application's version; only when
   * submit is enabled.
   */
  function UpdateRequest(b: Buttons, routeId: string, versionNumber: int): (r: Option<seq<(string, string)>>)
    ensures r.Some? <==> SubmitEnabled(b)
    ensures r.Some? ==> |r.value| == 3
    ensures r.Some? ==> r.value[0] == ("applicationId", routeId) && r.value[1] == ("status", StatusName(b.status))
    ensures r.Some? ==> r.value[2] == ("versionNumber", IntToString(versionNumber))
  {
    if SubmitEnabled(b) then
      Some([("applicationId", routeId), ("status", StatusName(b.status)), ("versionNumber", IntToString(versionNumber))])
    else None
  }

  /**
   * The reviewer controller parses the page's three form fields into
   * `SetApplicationStatus(id, status, version)` as long as id and version
   * fit a Java `int`; a version beyond that range is refused. Whether the
   * request gets past the security chain is a separate question: the page
   * sends it without a bearer token (see `RequestPipeline`).
   */
  lemma {:induction false} UpdateRequestAccepted(b: Buttons, id: int, versionNumber: int)
    requires SubmitEnabled(b) && InInt(id)
    ensures var fields := UpdateRequest(b, IntToString(id), versionNumber).value;
      var r := ReviewerEndpoint.UpdateApplicationsByStatus(Some(fields[0].1), Some(fields[1].1), Some(fields[2].1));
      && (InInt(versionNumber) ==> r == Success(ReviewerEndpoint.SetApplicationStatus(id, b.status, versionNumber)))
      && (!InInt(versionNumber) ==> r.Failure?)
  {
    ReviewerEndpoint.UpdateOfPrintedValues(id, b.status, versionNumber);
  }

  class ApplicationDetailsComp {
    var status: ApplicationStatus
    var isPressedAccepted: bool
    var isPressedDenied: bool

    function State(): Buttons
      reads this
    {
      Buttons(status, isPressedAccepted, isPressedDenied)
    }

    constructor ()
      ensures State() == Initial
    {
      status, isPressedAccepted, isPressedDenied := Unchecked, false, false;
    }

    method HandleAccept()
      modifies this
      ensures State() == Step(old(State()), Accept)
      ensures old(Consistent(State())) ==> Consistent(State())
    {
      status := Accepted;
      isPressedAccepted := !isPressedAccepted;
      isPressedDenied := false;
    }

    method HandleDecline()
      modifies this
      ensures State() == Step(old(State()), Decline)
      ensures old(Consistent(State())) ==> Consistent(State())
    {
      status := Denied;
      isPressedDenied := !isPressedDenied;
      isPressedAccepted := false;
    }
  }
}
