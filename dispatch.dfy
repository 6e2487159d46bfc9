/** The moderation effects of `send_responses` and the rules that decide
    which of them are attempted. */
module Dispatch {
  import opened Results
  import opened Settings

  /** The triggering message event. */
  datatype Event = Event(roomId: string, eventId: string)

  /** A call into the chat client: `evt.reply(text)`,
      `client.send_text(room_id, text)` or `client.redact(room_id, event_id, reason)`. */
  datatype Effect =
    | Reply(text: string)
    | SendText(roomId: string, text: string)
    | Redact(roomId: string, eventId: string, reason: string)

  /** How one call ends: it succeeds, or raises MBadJSON, MForbidden, or any
      other exception. */
  datatype Outcome = Ok | BadJson | Forbidden | OtherError

  /** The outcome each call would have, should it be made. */
  datatype Outcomes = Outcomes(reply: Outcome, report: Outcome, redact: Outcome)

  /** How `send_responses` ends: it returned early because everything was
      safe and `ignore_sfw` is set; all attempted calls returned or had their
      failure caught; or a failure reached the outer `except`. */
  datatype DispatchStatus = Ignored | Completed | Aborted(failure: Outcome)

  const RedactReason: string := "NSFW"

  /** The position of an effect in the order the code tries them. */
  function Rank(e: Effect): nat {
    match e
    case Reply(_) => 0
    case SendText(_, _) => 1
    case Redact(_, _, _) => 2
  }

  function OutcomeOf(e: Effect, o: Outcomes): Outcome {
    match e
    case Reply(_) => o.reply
    case SendText(_, _) => o.report
    case Redact(_, _, _) => o.redact
  }

  /** The call fails with an exception its own handler does not catch: any
      failure of the reply (it has no handler), anything but MBadJSON from the
      report, anything but MForbidden from the redaction. */
  predicate Escapes(e: Effect, o: Outcomes) {
    match e
    case Reply(_) => o.reply != Ok
    case SendText(_, _) => o.report != Ok && o.report != BadJson
    case Redact(_, _, _) => o.redact != Ok && o.redact != Forbidden
  }

  /** The three calls `send_responses` can make, in its order. */
  function Plan(reportTo: string, evt: Event, response: string): seq<Effect> {
    [Reply(response), SendText(reportTo, response), Redact(evt.roomId, evt.eventId, RedactReason)]
  }

  /** What `send_responses` does, given the `actions`, the resolved
      `report_to_room`, the message, the formatted response, the results and
      the outcome each call would have:
      - when `ignore_sfw` is set and no result is NSFW, nothing at all;
      - otherwise the calls it attempts are among reply, report, redaction, in
        that order, each at most once;
      - the reply exactly when `direct_reply` is set;
      - the report exactly when `report_to_room` is non-empty and no reply
        failure came before it;
      - the redaction exactly when some result is NSFW, `redact_nsfw` is set,
        and neither a reply failure nor a report failure other than MBadJSON
        came before it;
      - it completes exactly when none of the attempted calls had an uncaught
        failure; otherwise it is aborted by the failure of the last attempted call. */
  ghost predicate Dispatched(a: Actions, reportTo: string, evt: Event, response: string,
                             results: seq<Entry>, o: Outcomes,
                             effects: seq<Effect>, status: DispatchStatus)
  {
    var plan := Plan(reportTo, evt, response);
    var ignored := a.IgnoreSfw() && !HasNsfw(results);
    var replyPassed := !a.DirectReply() || o.reply == Ok;
    var reportPassed := reportTo == "" || !Escapes(plan[1], o);
    && (ignored ==> effects == [])
    && (forall i :: 0 <= i < |effects| ==> effects[i] in plan)
    && (forall i, j :: 0 <= i < j < |effects| ==> Rank(effects[i]) < Rank(effects[j]))
    && (plan[0] in effects <==> !ignored && a.DirectReply())
    && (plan[1] in effects <==> !ignored && replyPassed && reportTo != "")
    && (plan[2] in effects <==> !ignored && replyPassed && reportPassed && HasNsfw(results) && a.RedactNsfw())
    && (status == Ignored <==> ignored)
    && (status == Completed <==> !ignored && forall i :: 0 <= i < |effects| ==> !Escapes(effects[i], o))
    && (status.Aborted? ==> |effects| > 0 && status.failure == OutcomeOf(effects[|effects| - 1], o))
  }

  /** The plan's effects for which the flag is set, in plan order. */
  function Select(plan: seq<Effect>, b0: bool, b1: bool, b2: bool): seq<Effect>
    requires |plan| == 3
  {
    (if b0 then [plan[0]] else []) + (if b1 then [plan[1]] else []) + (if b2 then [plan[2]] else [])
  }

  /** A selection from the plan is ordered by rank and holds exactly the
      effects whose flag is set. */
  lemma SelectShape(reportTo: string, evt: Event, response: string, b0: bool, b1: bool, b2: bool)
    ensures var plan := Plan(reportTo, evt, response);
            var e := Select(plan, b0, b1, b2);
            && (forall i :: 0 <= i < |e| ==> e[i] in plan)
            && (forall i, j :: 0 <= i < j < |e| ==> Rank(e[i]) < Rank(e[j]))
            && (plan[0] in e <==> b0) && (plan[1] in e <==> b1) && (plan[2] in e <==> b2)
  {
  }

  /** The calls the rules of Dispatched attempt, as flags on the plan. */
  function Attempts(a: Actions, reportTo: string, evt: Event, response: string,
                    results: seq<Entry>, o: Outcomes): seq<Effect>
  {
    var ignored := a.IgnoreSfw() && !HasNsfw(results);
    var replyPassed := !a.DirectReply() || o.reply == Ok;
    var reportPassed := reportTo == "" || (o.report == Ok || o.report == BadJson);
    Select(Plan(reportTo, evt, response),
           !ignored && a.DirectReply(),
           !ignored && replyPassed && reportTo != "",
           !ignored && replyPassed && reportPassed && HasNsfw(results) && a.RedactNsfw())
  }

  /** The status the rules of Dispatched give: the uncaught failure of the
      last attempted call, if any. */
  function FinalStatus(a: Actions, reportTo: string, evt: Event, response: string,
                       results: seq<Entry>, o: Outcomes): DispatchStatus
  {
    var e := Attempts(a, reportTo, evt, response, results, o);
    if a.IgnoreSfw() && !HasNsfw(results) then Ignored
    else if |e| > 0 && Escapes(e[|e| - 1], o) then Aborted(OutcomeOf(e[|e| - 1], o))
    else Completed
  }

  /** Attempts and FinalStatus obey the rules of Dispatched. */
  lemma AttemptsAreDispatched(a: Actions, reportTo: string, evt: Event, response: string,
                              results: seq<Entry>, o: Outcomes)
    ensures Dispatched(a, reportTo, evt, response, results, o,
                       Attempts(a, reportTo, evt, response, results, o),
                       FinalStatus(a, reportTo, evt, response, results, o))
  {
    AttemptsInPlanOrder(a, reportTo, evt, response, results, o);
    AttemptsFollowRules(a, reportTo, evt, response, results, o);
    FinalStatusFollowsRules(a, reportTo, evt, response, results, o);
  }

  lemma AttemptsInPlanOrder(a: Actions, reportTo: string, evt: Event, response: string,
                            results: seq<Entry>, o: Outcomes)
    ensures var e := Attempts(a, reportTo, evt, response, results, o);
            var plan := Plan(reportTo, evt, response);
            && (forall i :: 0 <= i < |e| ==> e[i] in plan)
            && (forall i, j :: 0 <= i < j < |e| ==> Rank(e[i]) < Rank(e[j]))
  {
    var ignored := a.IgnoreSfw() && !HasNsfw(results);
    var replyPassed := !a.DirectReply() || o.reply == Ok;
    var reportPassed := reportTo == "" || (o.report == Ok || o.report == BadJson);
    SelectShape(reportTo, evt, response, !ignored && a.DirectReply(), !ignored && replyPassed && reportTo != "",
                !ignored && replyPassed && reportPassed && HasNsfw(results) && a.RedactNsfw());
  }

  lemma AttemptsFollowRules(a: Actions, reportTo: string, evt: Event, response: string,
                            results: seq<Entry>, o: Outcomes)
    ensures var e := Attempts(a, reportTo, evt, response, results, o);
            var plan := Plan(reportTo, evt, response);
            var ignored := a.IgnoreSfw() && !HasNsfw(results);
            var replyPassed := !a.DirectReply() || o.reply == Ok;
            var reportPassed := reportTo == "" || !Escapes(plan[1], o);
            && (plan[0] in e <==> !ignored && a.DirectReply())
            && (plan[1] in e <==> !ignored && replyPassed && reportTo != "")
            && (plan[2] in e <==> !ignored && replyPassed && reportPassed && HasNsfw(results) && a.RedactNsfw())
  {
    var ignored := a.IgnoreSfw() && !HasNsfw(results);
    var replyPassed := !a.DirectReply() || o.reply == Ok;
    var reportPassed := reportTo == "" || (o.report == Ok || o.report == BadJson);
    SelectShape(reportTo, evt, response, !ignored && a.DirectReply(), !ignored && replyPassed && reportTo != "",
                !ignored && replyPassed && reportPassed && HasNsfw(results) && a.RedactNsfw());
  }

  lemma FinalStatusFollowsRules(a: Actions, reportTo: string, evt: Event, response: string,
                                results: seq<Entry>, o: Outcomes)
    ensures var e := Attempts(a, reportTo, evt, response, results, o);
            var status := FinalStatus(a, reportTo, evt, response, results, o);
            var ignored := a.IgnoreSfw() && !HasNsfw(results);
            && (status == Ignored <==> ignored)
            && (status == Completed <==> !ignored && forall i :: 0 <= i < |e| ==> !Escapes(e[i], o))
            && (status.Aborted? ==> |e| > 0 && status.failure == OutcomeOf(e[|e| - 1], o))
  {
    var ignored := a.IgnoreSfw() && !HasNsfw(results);
    var replyPassed := !a.DirectReply() || o.reply == Ok;
    var reportPassed := reportTo == "" || (o.report == Ok || o.report == BadJson);
    var plan := Plan(reportTo, evt, response);
    var e := Attempts(a, reportTo, evt, response, results, o);
    assert e == Select(plan, !ignored && a.DirectReply(), !ignored && replyPassed && reportTo != "",
                       !ignored && replyPassed && reportPassed && HasNsfw(results) && a.RedactNsfw());
    // only the last attempted call can have an uncaught failure
    assert forall i :: 0 <= i < |e| - 1 ==> !Escapes(e[i], o);
  }

  /** Two effect lists drawn from the plan, both in plan order, with the same
      members, are the same list. */
  lemma {:induction false} SameRankedEffects(plan: seq<Effect>, e1: seq<Effect>, e2: seq<Effect>)
    requires forall i, j :: 0 <= i < |plan| && 0 <= j < |plan| && Rank(plan[i]) == Rank(plan[j]) ==> i == j
    requires forall i :: 0 <= i < |e1| ==> e1[i] in plan
    requires forall i :: 0 <= i < |e2| ==> e2[i] in plan
    requires forall i, j :: 0 <= i < j < |e1| ==> Rank(e1[i]) < Rank(e1[j])
    requires forall i, j :: 0 <= i < j < |e2| ==> Rank(e2[i]) < Rank(e2[j])
    requires forall x :: x in e1 <==> x in e2
    ensures e1 == e2
  {
    if |e1| > 0 {
      assert e1[0] in e1;
    }
    if |e2| > 0 {
      assert e2[0] in e2;
    }
    if |e1| > 0 && |e2| > 0 {
      var j2 :| 0 <= j2 < |e2| && e2[j2] == e1[0];
      var j1 :| 0 <= j1 < |e1| && e1[j1] == e2[0];
      assert Rank(e1[0]) == Rank(e2[0]);
      var p1 :| 0 <= p1 < |plan| && plan[p1] == e1[0];
      var p2 :| 0 <= p2 < |plan| && plan[p2] == e2[0];
      assert e1[0] == e2[0];
      forall x
        ensures x in e1[1..] <==> x in e2[1..]
      {
        assert x in e1[1..] <==> x in e1 && x != e1[0];
        assert x in e2[1..] <==> x in e2 && x != e2[0];
      }
      SameRankedEffects(plan, e1[1..], e2[1..]);
      assert e1 == [e1[0]] + e1[1..];
      assert e2 == [e2[0]] + e2[1..];
    }
  }

  /** In an effect list strictly ordered by rank, the effect at index `i` has
      rank at least `i`; so there are at most three effects. */
  lemma {:induction false} RankAtLeastIndex(effects: seq<Effect>)
    requires forall i, j :: 0 <= i < j < |effects| ==> Rank(effects[i]) < Rank(effects[j])
    ensures forall i :: 0 <= i < |effects| ==> Rank(effects[i]) >= i
    ensures |effects| <= 3
  {
    if |effects| > 0 {
      var n := |effects| - 1;
      RankAtLeastIndex(effects[..n]);
      assert forall i :: 0 <= i < n ==> effects[..n][i] == effects[i];
      if n > 0 {
        assert Rank(effects[n - 1]) < Rank(effects[n]);
      }
    }
  }

  /** The rules of Dispatched leave exactly one possible behaviour. */
  lemma DispatchedIsDeterministic(a: Actions, reportTo: string, evt: Event, response: string,
                                  results: seq<Entry>, o: Outcomes,
                                  e1: seq<Effect>, s1: DispatchStatus, e2: seq<Effect>, s2: DispatchStatus)
    requires Dispatched(a, reportTo, evt, response, results, o, e1, s1)
    requires Dispatched(a, reportTo, evt, response, results, o, e2, s2)
    ensures e1 == e2 && s1 == s2
  {
    var plan := Plan(reportTo, evt, response);
    forall x
      ensures x in e1 <==> x in e2
    {
      if x in e1 || x in e2 {
        assert x in plan;
      }
    }
    SameRankedEffects(plan, e1, e2);
  }

  /** A failed reply ends the dispatch: neither the report nor the redaction
      is attempted. */
  lemma ReplyFailureSkipsRest(a: Actions, reportTo: string, evt: Event, response: string,
                              results: seq<Entry>, o: Outcomes,
                              effects: seq<Effect>, status: DispatchStatus)
    requires Dispatched(a, reportTo, evt, response, results, o, effects, status)
    requires !(a.IgnoreSfw() && !HasNsfw(results))
    requires a.DirectReply() && o.reply != Ok
    ensures effects == [Reply(response)] && status == Aborted(o.reply)
  {
    var plan := Plan(reportTo, evt, response);
    assert plan[0] in effects;
    forall i | 0 <= i < |effects|
      ensures effects[i] == Reply(response)
    {
      assert effects[i] in plan;
    }
    RankAtLeastIndex(effects);
    assert Rank(effects[|effects| - 1]) == 0;
    assert effects[0] == Reply(response);
    assert Escapes(effects[0], o);
  }

  /** With nothing to report (every fetch failed, say) and `ignore_sfw` off,
      `direct_reply` still sends a reply, and it comes first. */
  lemma EmptyBatchStillReplies(a: Actions, reportTo: string, evt: Event, response: string,
                               o: Outcomes, effects: seq<Effect>, status: DispatchStatus)
    requires Dispatched(a, reportTo, evt, response, [], o, effects, status)
    requires !a.IgnoreSfw() && a.DirectReply()
    ensures |effects| > 0 && effects[0] == Reply(response)
  {
    var plan := Plan(reportTo, evt, response);
    assert plan[0] in effects;
    var i :| 0 <= i < |effects| && effects[i] == Reply(response);
  }
}
