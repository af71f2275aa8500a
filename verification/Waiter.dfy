/** SendAndWaitValidated: counting validated replies while replies, validations, wake-ups, resends
    and the deadline arrive in any order. */
module Waiter {
  import opened Structures
  import opened Payloads
  import opened Certificates
  import opened Maker
  import opened CreatorThreads

  /** What the select loop and the validating goroutines see next. A reply may be stale, come from
      anybody and repeat; Checked is a goroutine finishing its validation of a reply; Wake is the
      loop receiving from the channel the goroutines signal on. */
  datatype WaitEvent = Reply(id: string, msg: string) | Checked(id: string, msg: string) | Wake | Timer | Deadline

  /** Event t is a successful validation of a reply received before. */
  ghost predicate Passes(validate: (string, string) -> bool, events: seq<WaitEvent>, t: int) {
    && 0 <= t < |events| && events[t].Checked? && validate(events[t].id, events[t].msg)
    && Reply(events[t].id, events[t].msg) in events[..t]
  }

  ghost function ValidIds(validate: (string, string) -> bool, events: seq<WaitEvent>): set<string> {
    set t | 0 <= t < |events| && Passes(validate, events, t) :: events[t].id
  }

  ghost predicate Answered(events: seq<WaitEvent>, id: string) {
    exists t :: 0 <= t < |events| && events[t].Reply? && events[t].id == id
  }

  ghost predicate AllAnswered(events: seq<WaitEvent>, quorum: seq<string>) {
    forall id :: id in quorum ==> Answered(events, id)
  }

  /** The event at which the loop must return: a wake-up with enough validated ids, a resend with
      nobody left to ask, or the deadline. */
  ghost predicate Returns(validate: (string, string) -> bool, events: seq<WaitEvent>, quorum: seq<string>,
                          majority: nat, t: int)
    requires 0 <= t < |events|
  {
    var valid := ValidIds(validate, events[..t]);
    match events[t]
    case Wake => valid != {} && |valid| >= majority
    case Timer => AllAnswered(events[..t], quorum)
    case Deadline => true
    case _ => false
  }

  /** The first event from `from` on at which the loop must return, or the end of the schedule. */
  ghost function FirstReturn(validate: (string, string) -> bool, events: seq<WaitEvent>, quorum: seq<string>,
                             majority: nat, from: nat): (t: nat)
    requires from <= |events|
    ensures from <= t <= |events| && (t < |events| ==> Returns(validate, events, quorum, majority, t))
    ensures forall u :: from <= u < t ==> !Returns(validate, events, quorum, majority, u)
    decreases |events| - from
  {
    if from == |events| || Returns(validate, events, quorum, majority, from) then from
    else FirstReturn(validate, events, quorum, majority, from + 1)
  }

  lemma ValidIdsGrow(validate: (string, string) -> bool, events: seq<WaitEvent>, t: nat)
    requires t < |events|
    ensures ValidIds(validate, events[..t + 1]) ==
              ValidIds(validate, events[..t]) + if Passes(validate, events, t) then {events[t].id} else {}
  {
    var before, after := events[..t], events[..t + 1];
    forall u | 0 <= u <= t
      ensures Passes(validate, after, u) <==> Passes(validate, events, u)
      ensures u < t ==> (Passes(validate, before, u) <==> Passes(validate, events, u))
    {
      assert after[..u] == events[..u];
      assert u < t ==> before[..u] == events[..u];
    }
    forall id | id in ValidIds(validate, after)
      ensures id in ValidIds(validate, before) || (Passes(validate, events, t) && id == events[t].id)
    {
      var u :| 0 <= u < |after| && Passes(validate, after, u) && after[u].id == id;
      if u < t { assert before[u].id == id; }
    }
    forall id | id in ValidIds(validate, before)
      ensures id in ValidIds(validate, after)
    {
      var u :| 0 <= u < |before| && Passes(validate, before, u) && before[u].id == id;
      assert after[u].id == id;
    }
    if Passes(validate, events, t) {
      assert Passes(validate, after, t) && after[t].id == events[t].id;
    }
  }

  lemma AnsweredGrows(events: seq<WaitEvent>, t: nat, id: string)
    requires t < |events|
    ensures Answered(events[..t + 1], id) <==> Answered(events[..t], id) || (events[t].Reply? && events[t].id == id)
  {
    if Answered(events[..t], id) {
      var u :| 0 <= u < t && events[..t][u].Reply? && events[..t][u].id == id;
      assert events[..t + 1][u].id == id;
    }
    if events[t].Reply? && events[t].id == id {
      assert events[..t + 1][t].id == id;
    }
    if Answered(events[..t + 1], id) {
      var u :| 0 <= u < t + 1 && events[..t + 1][u].Reply? && events[..t + 1][u].id == id;
      if u < t { assert events[..t][u].id == id; }
    }
  }

  /** The loop's variables after the events seen so far. */
  ghost predicate Tracks(validate: (string, string) -> bool, seen: seq<WaitEvent>,
                         answered: set<string>, received: set<(string, string)>, valid: map<string, string>) {
    && (forall id :: id in answered <==> Answered(seen, id))
    && (forall id, msg :: (id, msg) in received <==> Reply(id, msg) in seen)
    && valid.Keys == ValidIds(validate, seen)
    && (forall id :: id in valid ==> validate(id, valid[id]) && Reply(id, valid[id]) in seen)
  }

  lemma NothingYet(validate: (string, string) -> bool)
    ensures Tracks(validate, [], {}, {}, map[])
  {
  }

  /** What one more event adds to the answered, received and validated replies. */
  lemma EventTracked(validate: (string, string) -> bool, events: seq<WaitEvent>, t: nat,
                     answered: set<string>, received: set<(string, string)>, valid: map<string, string>)
    requires t < |events| && Tracks(validate, events[..t], answered, received, valid)
    ensures var seen := events[..t + 1];
            match events[t]
            case Reply(id, msg) => Tracks(validate, seen, answered + {id}, received + {(id, msg)}, valid)
            case Checked(id, msg) =>
              Tracks(validate, seen, answered, received,
                     if (id, msg) in received && validate(id, msg) && id !in valid then valid[id := msg] else valid)
            case _ => Tracks(validate, seen, answered, received, valid)
  {
    hide Answered, ValidIds;
    ValidIdsGrow(validate, events, t);
    assert events[..t + 1] == events[..t] + [events[t]];
    forall id
      ensures Answered(events[..t + 1], id) <==> Answered(events[..t], id) || (events[t].Reply? && events[t].id == id)
    {
      AnsweredGrows(events, t, id);
    }
  }

  /** When to return, in terms of the loop's variables. */
  lemma ReturnsNow(validate: (string, string) -> bool, events: seq<WaitEvent>, quorum: seq<string>, majority: nat,
                   t: nat,
                   answered: set<string>, received: set<(string, string)>, valid: map<string, string>)
    requires t < |events| && Tracks(validate, events[..t], answered, received, valid)
    ensures Returns(validate, events, quorum, majority, t) <==>
              match events[t]
              case Wake => |valid| > 0 && |valid| >= majority
              case Timer => forall id :: id in quorum ==> id in answered
              case Deadline => true
              case _ => false
  {
    hide Answered, ValidIds;
    assert |valid| == |valid.Keys|;
  }

  lemma TrackedResult(validate: (string, string) -> bool, seen: seq<WaitEvent>,
                      answered: set<string>, received: set<(string, string)>, valid: map<string, string>)
    requires Tracks(validate, seen, answered, received, valid)
    ensures valid.Keys == ValidIds(validate, seen) && |valid| == |ValidIds(validate, seen)|
    ensures forall id :: id in valid ==> validate(id, valid[id]) && Reply(id, valid[id]) in seen
  {
    hide ValidIds;
    assert |valid| == |valid.Keys|;
  }

  /** Runs until its deadline at the latest; `events` is the order in which things happen. It
      returns at the first event where it should, and no wake-up is ever lost: once a majority has
      been validated the very next wake-up returns it. */
  method SendAndWaitValidated(events: seq<WaitEvent>, quorum: seq<string>, majority: nat,
                              validate: (string, string) -> bool)
    returns (out: map<string, string>, ok: bool)
    ensures var seen := events[..FirstReturn(validate, events, quorum, majority, 0)];
            && (ok <==> |ValidIds(validate, seen)| >= majority)
            && (if ok then out.Keys == ValidIds(validate, seen) else out == map[])
            && forall id :: id in out ==> validate(id, out[id]) && Reply(id, out[id]) in seen
  {
    hide ValidIds, Tracks, Returns;
    NothingYet(validate);
    var answered: set<string> := {};
    var received: set<(string, string)> := {};
    var valid: map<string, string> := map[];
    var signals: nat := 0;
    ghost var consumed: nat := 0;
    var i: nat := 0;
    while i < |events|
      invariant i <= |events|
      invariant FirstReturn(validate, events, quorum, majority, 0) == FirstReturn(validate, events, quorum, majority, i)
      invariant Tracks(validate, events[..i], answered, received, valid)
      invariant signals + consumed == |valid|
      invariant consumed == 0 || consumed < majority
    {
      ReturnsNow(validate, events, quorum, majority, i, answered, received, valid);
      EventTracked(validate, events, i, answered, received, valid);
      match events[i] {
        case Reply(id, msg) =>
          answered := answered + {id};
          received := received + {(id, msg)};
        case Checked(id, msg) =>
          if (id, msg) in received && validate(id, msg) && id !in valid {
            valid := valid[id := msg];
            signals := signals + 1;
          }
        case Wake =>
          if signals > 0 {
            if |valid| >= majority {
              break;
            }
            signals := signals - 1;
            consumed := consumed + 1;
          }
        case Timer =>
          if forall id :: id in quorum ==> id in answered {
            break;
          }
        case Deadline =>
          break;
      }
      i := i + 1;
    }
    TrackedResult(validate, events[..i], answered, received, valid);
    if |valid| >= majority {
      return valid, true;
    }
    return map[], false;
  }

  /** The proofs gathered from replies are one per voter, whatever connections they came through. */
  lemma {:induction false} ProofsAreByVoter(replies: seq<FpReply>)
    ensures ProofsOf(replies).Keys == set r | r in replies :: r.voter
  {
    if replies != [] {
      var n := |replies| - 1;
      ProofsAreByVoter(replies[..n]);
      assert replies == replies[..n] + [replies[n]];
    }
  }

  /** Validated replies certify the block exactly when they come from a majority of distinct
      voters: one voter behind many connections counts once. */
  lemma ValidatedRepliesCertify(w: World, ep: Epoch, afp: Afp, replies: seq<FpReply>)
    requires forall r :: r in replies ==> ReplyValid(w, ep, AfpPayload(afp, ep.id), afp.blockHash, r)
    requires afp.proofs == ProofsOf(replies)
    ensures AfpOk(w, afp, ep) <==> |set r | r in replies :: r.voter| >= Majority(|ep.quorum|)
  {
    hide AfpPayload;
    ProofsAreByVoter(replies);
    ValidRepliesAreChecked(w, ep, AfpPayload(afp, ep.id), afp.blockHash, replies);
    forall v | v in afp.proofs
      ensures v in ep.quorum && w.verify(AfpPayload(afp, ep.id), v, afp.proofs[v])
    {
      assert ReplyOk(w, ep, AfpPayload(afp, ep.id), v, ProofsOf(replies)[v]);
    }
    CheckedProofsCertify(w, afp, ep);
  }
}
