/** Processing a partition's log of registered events, once or over again. */
module Replay {
  import opened Common
  import opened Sessions

  /** What a partition holds at an offset: nothing (offsets may be skipped), a registered event, or a
      message that the subscriber cannot deserialize. */
  datatype Entry = Gap | Message(event: RfqRegistered) | Poison

  function Process(m: SessionMap, log: seq<Entry>): SessionMap {
    if log == [] then m
    else
      var before := Process(m, log[..|log| - 1]);
      match log[|log| - 1]
      case Message(event) => Register(before, event)
      case _ => before
  }

  lemma {:induction false} ProcessAppend(m: SessionMap, a: seq<Entry>, b: seq<Entry>)
    ensures Process(m, a + b) == Process(Process(m, a), b)
  {
    if b == [] {
      assert a + b == a;
    } else {
      assert (a + b)[..|a + b| - 1] == a + b[..|b| - 1];
      ProcessAppend(m, a, b[..|b| - 1]);
    }
  }

  /** No event in the range registers this request. */
  predicate Silent(log: seq<Entry>, lo: nat, hi: nat, id: RequestId)
    requires hi <= |log|
  {
    forall o :: lo <= o < hi && log[o].Message? ==> log[o].event.rfqId != id
  }

  /** The outcome for a request depends only on the last event that registers it. */
  lemma {:induction false} LastRegistrationDecides(a: SessionMap, b: SessionMap, log: seq<Entry>, id: RequestId)
    requires !Silent(log, 0, |log|, id) || SameAt(a, b, id)
    ensures SameAt(Process(a, log), Process(b, log), id)
  {
    if log != [] {
      var init := log[..|log| - 1];
      var last := log[|log| - 1];
      if last.Message? && last.event.rfqId == id {
      } else {
        if !Silent(log, 0, |log|, id) {
          var o :| 0 <= o < |log| && log[o].Message? && log[o].event.rfqId == id;
          assert init[o] == log[o];
        }
        LastRegistrationDecides(a, b, init, id);
      }
    }
  }

  /** The message at this offset is the last one before `hi` that registers the request. */
  predicate IsLastFor(log: seq<Entry>, o: nat, hi: nat, id: RequestId) {
    && o < hi <= |log| && log[o].Message? && log[o].event.rfqId == id
    && Silent(log, o + 1, hi, id)
  }

  /** Processing a log leaves a request with the terms of the last event that registers it. */
  lemma {:induction false} LastRegistrationGivesTerms(m: SessionMap, log: seq<Entry>, o: nat, id: RequestId)
    requires IsLastFor(log, o, |log|, id)
    ensures id in Process(m, log) && HasTermsOf(Process(m, log)[id], log[o].event)
  {
    if o < |log| - 1 {
      LastRegistrationGivesTerms(m, log[..|log| - 1], o, id);
      assert log[|log| - 1].Message? ==> log[|log| - 1].event.rfqId != id;
    }
  }

  /** The same for a stretch of the log. */
  lemma StretchGivesTerms(m: SessionMap, log: seq<Entry>, start: nat, o: nat, hi: nat, id: RequestId)
    requires start <= o && IsLastFor(log, o, hi, id)
    ensures id in Process(m, log[start..hi]) && HasTermsOf(Process(m, log[start..hi])[id], log[o].event)
  {
    var part := log[start..hi];
    assert forall i :: 0 <= i < |part| ==> part[i] == log[start + i];
    assert part[o - start] == log[o];
    hide Process, HasTermsOf;
    LastRegistrationGivesTerms(m, part, o - start, id);
  }

  lemma {:induction false} SilentChangesNothing(m: SessionMap, log: seq<Entry>, id: RequestId)
    requires Silent(log, 0, |log|, id)
    ensures SameAt(Process(m, log), m, id)
  {
    if log != [] {
      var init := log[..|log| - 1];
      forall o | 0 <= o < |init| && init[o].Message? ensures init[o].event.rfqId != id {
        assert init[o] == log[o];
      }
      SilentChangesNothing(m, init, id);
    }
  }

  /** A stretch of the log that does not register a request leaves it as it was. */
  lemma SilentTail(m: SessionMap, log: seq<Entry>, start: nat, mid: nat, top: nat, id: RequestId)
    requires start <= mid <= top <= |log| && Silent(log, mid, top, id)
    ensures SameAt(Process(m, log[start..top]), Process(m, log[start..mid]), id)
  {
    var tail := log[mid..top];
    assert log[start..top] == log[start..mid] + tail;
    ProcessAppend(m, log[start..mid], tail);
    assert Silent(tail, 0, |tail|, id) by {
      assert forall o :: 0 <= o < |tail| ==> tail[o] == log[mid + o];
    }
    hide Silent, Process;
    SilentChangesNothing(Process(m, log[start..mid]), tail, id);
  }

  lemma ProcessNext(m: SessionMap, log: seq<Entry>, start: nat, o: nat)
    requires start <= o < |log| && log[o].Message?
    ensures Process(m, log[start..o + 1]) == Register(Process(m, log[start..o]), log[o].event)
  {
    assert log[start..o + 1][..|log[start..o + 1]| - 1] == log[start..o];
  }

  /** Processing a log and then any suffix of it again leaves what processing it once leaves. */
  lemma ReplayIsHarmless(m: SessionMap, log: seq<Entry>, k: nat)
    requires k <= |log|
    ensures Process(Process(m, log), log[k..]) == Process(m, log)
  {
    var once, suffix := Process(m, log), log[k..];
    var twice := Process(once, suffix);
    assert log == log[..k] + suffix;
    ProcessAppend(m, log[..k], suffix);
    forall id: RequestId ensures SameAt(twice, once, id) {
      if Silent(suffix, 0, |suffix|, id) {
        SilentChangesNothing(once, suffix, id);
      } else {
        LastRegistrationDecides(once, Process(m, log[..k]), suffix, id);
      }
    }
    EqualMaps(twice, once);
  }

  lemma EqualMaps(a: SessionMap, b: SessionMap)
    requires forall id: RequestId :: SameAt(a, b, id)
    ensures a == b
  {
    assert forall id :: id in a ==> id in b by {
      forall id | id in a ensures id in b { assert SameAt(a, b, id); }
    }
    assert forall id :: id in b ==> id in a by {
      forall id | id in b ensures id in a { assert SameAt(a, b, id); }
    }
    assert a.Keys == b.Keys;
    forall id | id in a ensures a[id] == b[id] { assert SameAt(a, b, id); }
  }
}
