// Who may speak while the local microphone hears speech (src/ws_collab/captioner.py, `LocalMicFloor`).
// Times are whole milliseconds.
module MicFloor {
  import opened Sequences

  datatype Heard = Speech | Silence | Idle | Other

  /** A report of a capture page: its owner, its place in the owner's order, and what it hears. */
  datatype Transition = Transition(owner: string, epoch: int, number: int, heard: Heard, speechEnd: bool)

  datatype Limits = Limits(stale: int, hangover: int)

  datatype Floor = Floor(owner: Option<string>, epoch: int, number: int, speech: bool, releaseAt: Option<int>,
                         receivedAt: Option<int>)

  const NOTHING: Floor := Floor(None, 0, 0, false, None, None)

  datatype Verdict = Stale | Duplicate | Accepted(acquired: bool, changedOwner: bool)

  datatype Status = Unknown | Speaking | Hangover | Clear

  /** The order of reports of one owner. */
  predicate Before(epoch: int, number: int, t: Transition) {
    epoch < t.epoch || (epoch == t.epoch && number < t.number)
  }

  predicate Available(f: Floor, now: int, l: Limits) {
    f.receivedAt.Some? && now - f.receivedAt.value <= l.stale
  }

  function StatusOf(f: Floor, now: int, l: Limits): Status {
    if !Available(f, now, l) then Unknown
    else if f.speech then Speaking
    else if f.releaseAt.Some? && now < f.releaseAt.value then Hangover
    else Clear
  }

  predicate Blocked(f: Floor, now: int, l: Limits) {
    StatusOf(f, now, l).Speaking? || StatusOf(f, now, l).Hangover?
  }

  function Judged(f: Floor, t: Transition, now: int, l: Limits): Verdict {
    if f.owner == Some(t.owner) && !Before(f.epoch, f.number, t) then
      if f.epoch == t.epoch && f.number == t.number then Duplicate else Stale
    else
      var changed := f.owner != Some(t.owner);
      Accepted(t.heard.Speech? && (changed || !f.speech || !Available(f, now, l)), changed)
  }

  function Applied(f: Floor, t: Transition, now: int, l: Limits): Floor {
    if !Judged(f, t, now, l).Accepted? then f
    else
      var release := match t.heard
        case Speech => None
        case Other => None
        case _ => if f.speech || t.speechEnd then Some(now + l.hangover) else f.releaseAt;
      Floor(Some(t.owner), t.epoch, t.number, t.heard.Speech?, release, Some(now))
  }

  class LocalMicFloor {
    const limits: Limits
    var owner: Option<string>
    var epoch: int
    var number: int
    var speech: bool
    var releaseAt: Option<int>
    var receivedAt: Option<int>

    function View(): Floor
      reads this
    {
      Floor(owner, epoch, number, speech, releaseAt, receivedAt)
    }

    constructor (limits: Limits)
      ensures this.limits == limits && View() == NOTHING
    {
      this.limits := limits;
      owner, epoch, number, speech, releaseAt, receivedAt := None, 0, 0, false, None, None;
    }

    method Apply(t: Transition, now: int) returns (verdict: Verdict)
      modifies this
      ensures View() == Applied(old(View()), t, now, limits) && verdict == Judged(old(View()), t, now, limits)
    {
      var wasAvailable := receivedAt.Some? && now - receivedAt.value <= limits.stale;
      if owner == Some(t.owner) {
        if t.epoch < epoch || (t.epoch == epoch && t.number < number) {
          return Stale;
        }
        if t.epoch == epoch && t.number == number {
          return Duplicate;
        }
      }
      var changedOwner := owner != Some(t.owner);
      if changedOwner {
        owner, epoch, number := Some(t.owner), 0, 0;
      }
      epoch, number, receivedAt := t.epoch, t.number, Some(now);
      var acquired := t.heard.Speech? && (changedOwner || !speech || !wasAvailable);
      if t.heard.Speech? {
        speech, releaseAt := true, None;
      } else if t.heard.Silence? || t.heard.Idle? {
        var needsHangover := speech || t.speechEnd;
        speech := false;
        if needsHangover {
          releaseAt := Some(now + limits.hangover);
        }
      } else {
        speech, releaseAt := false, None;
      }
      return Accepted(acquired, changedOwner);
    }

    method Status(now: int) returns (status: Status, blocked: bool)
      ensures status == StatusOf(View(), now, limits) && blocked == Blocked(View(), now, limits)
    {
      if receivedAt.None? || now - receivedAt.value > limits.stale {
        return Unknown, false;
      } else if speech {
        return Speaking, true;
      } else if releaseAt.Some? && now < releaseAt.value {
        return Hangover, true;
      }
      return Clear, false;
    }
  }

  // ---------------------------------------------------------------- every run

  /** A report and the time it arrived. */
  datatype Arrival = Arrival(t: Transition, now: int)

  function After(f: Floor, arrivals: seq<Arrival>, l: Limits): Floor
    decreases |arrivals|
  {
    if arrivals == [] then f else After(Applied(f, arrivals[0].t, arrivals[0].now, l), arrivals[1..], l)
  }

  ghost predicate OneOwner(owner: string, arrivals: seq<Arrival>) {
    forall i | 0 <= i < |arrivals| :: arrivals[i].t.owner == owner
  }

  /** A place in the order of an owner's reports. */
  datatype Place = Place(epoch: int, number: int)

  function PlaceOf(t: Transition): Place {
    Place(t.epoch, t.number)
  }

  /** Where the order of an owner stands: nowhere if the floor is not its own. */
  function Standing(f: Floor, owner: string): Option<Place> {
    if f.owner == Some(owner) then Some(Place(f.epoch, f.number)) else None
  }

  predicate Later(last: Option<Place>, t: Transition) {
    last.Some? ==> Before(last.value.epoch, last.value.number, t)
  }

  /** A report that is later in its owner's order than where the order stands and than every report before it. */
  ghost predicate SetsRecord(last: Option<Place>, arrivals: seq<Arrival>, i: int)
    requires 0 <= i < |arrivals|
  {
    && Later(last, arrivals[i].t)
    && forall k | 0 <= k < i :: Before(arrivals[k].t.epoch, arrivals[k].t.number, arrivals[i].t)
  }

  /** The arrivals that set a new record, in order. */
  function Records(last: Option<Place>, arrivals: seq<Arrival>): seq<Arrival>
    decreases |arrivals|
  {
    if arrivals == [] then []
    else if Later(last, arrivals[0].t) then [arrivals[0]] + Records(Some(PlaceOf(arrivals[0].t)), arrivals[1..])
    else Records(last, arrivals[1..])
  }

  /** However reports of one owner are repeated and reordered, and whoever had the floor before, the floor is what the
      reports that set a new record make of it. */
  lemma {:induction false} OnlyRecordsMatter(f: Floor, arrivals: seq<Arrival>, owner: string, l: Limits)
    requires OneOwner(owner, arrivals)
    ensures After(f, arrivals, l) == After(f, Records(Standing(f, owner), arrivals), l)
    decreases |arrivals|
  {
    if arrivals != [] {
      var a := arrivals[0];
      var g := Applied(f, a.t, a.now, l);
      OnlyRecordsMatter(g, arrivals[1..], owner, l);
      if Later(Standing(f, owner), a.t) {
        var later := Records(Standing(g, owner), arrivals[1..]);
        assert Records(Standing(f, owner), arrivals) == [a] + later && ([a] + later)[1..] == later;
      }
    }
  }

  /** A report is accepted exactly when it sets a new record; so the first report of a new owner always is. */
  lemma {:induction false} AcceptedIffRecord(f: Floor, arrivals: seq<Arrival>, owner: string, l: Limits, i: int)
    requires OneOwner(owner, arrivals) && 0 <= i < |arrivals|
    ensures Judged(After(f, arrivals[..i], l), arrivals[i].t, arrivals[i].now, l).Accepted?
       <==> SetsRecord(Standing(f, owner), arrivals, i)
    decreases |arrivals|
  {
    if i > 0 {
      var a := arrivals[0];
      var g := Applied(f, a.t, a.now, l);
      AcceptedIffRecord(g, arrivals[1..], owner, l, i - 1);
      assert arrivals[..i][1..] == arrivals[1..][..i - 1];
      assert forall k | 0 <= k < i - 1 :: arrivals[1..][k] == arrivals[k + 1];
      assert arrivals[1..][i - 1] == arrivals[i];
    }
  }

  /** The floor stands at the latest of its owner's reports. */
  lemma {:induction false} StandsAtLatest(arrivals: seq<Arrival>, owner: string, l: Limits) returns (i: int)
    requires OneOwner(owner, arrivals) && arrivals != []
    ensures 0 <= i < |arrivals| && Standing(After(NOTHING, arrivals, l), owner) == Some(PlaceOf(arrivals[i].t))
    ensures forall k | 0 <= k < |arrivals| :: !Before(arrivals[i].t.epoch, arrivals[i].t.number, arrivals[k].t)
    decreases |arrivals|
  {
    var n := |arrivals| - 1;
    var t := arrivals[n].t;
    assert t.owner == owner;
    AfterLast(NOTHING, arrivals, l);
    i := n;
    if n > 0 {
      var front := arrivals[..n];
      var k := StandsAtLatest(front, owner, l);
      assert forall j | 0 <= j < n :: front[j] == arrivals[j];
      if !Before(arrivals[k].t.epoch, arrivals[k].t.number, t) {
        i := k;
      }
    }
  }

  /** A report that is refused is told whether it repeats the latest of its owner's or comes before one. */
  lemma {:induction false} RefusedAs(arrivals: seq<Arrival>, t: Transition, now: int, l: Limits)
    requires OneOwner(t.owner, arrivals) && arrivals != []
    ensures var verdict := Judged(After(NOTHING, arrivals, l), t, now, l);
            var early := exists i | 0 <= i < |arrivals| :: Before(t.epoch, t.number, arrivals[i].t);
            && (verdict == Stale <==> early)
            && (verdict == Duplicate <==> !early && exists i | 0 <= i < |arrivals| :: PlaceOf(arrivals[i].t) == PlaceOf(t))
  {
    var i := StandsAtLatest(arrivals, t.owner, l);
  }

  // ---------------------------------------------------------------- what blocks, and for how long

  ghost predicate AcceptedAt(f: Floor, arrivals: seq<Arrival>, l: Limits, i: int)
    requires 0 <= i < |arrivals|
  {
    Judged(After(f, arrivals[..i], l), arrivals[i].t, arrivals[i].now, l).Accepted?
  }

  lemma {:induction false} AfterLast(f: Floor, arrivals: seq<Arrival>, l: Limits)
    requires arrivals != []
    ensures var n := |arrivals| - 1; After(f, arrivals, l) == Applied(After(f, arrivals[..n], l), arrivals[n].t, arrivals[n].now, l)
    decreases |arrivals|
  {
    var n, a := |arrivals| - 1, arrivals[0];
    if n == 0 {
      assert arrivals[..0] == [] && arrivals[1..] == [];
    } else {
      AfterLast(Applied(f, a.t, a.now, l), arrivals[1..], l);
      assert arrivals[..n][1..] == arrivals[1..][..n - 1];
    }
  }

  /** The floor remembers when it last accepted a report. */
  lemma {:induction false} ReceivedIsAccepted(arrivals: seq<Arrival>, l: Limits) returns (i: int)
    requires After(NOTHING, arrivals, l).receivedAt.Some?
    ensures 0 <= i < |arrivals| && AcceptedAt(NOTHING, arrivals, l, i)
    ensures After(NOTHING, arrivals, l).receivedAt == Some(arrivals[i].now)
    decreases |arrivals|
  {
    var n := |arrivals| - 1;
    assert arrivals != [];
    AfterLast(NOTHING, arrivals, l);
    if AcceptedAt(NOTHING, arrivals, l, n) {
      i := n;
    } else {
      i := ReceivedIsAccepted(arrivals[..n], l);
      assert arrivals[..n][..i] == arrivals[..i];
    }
  }

  /** Whatever reports arrive in whatever order, the floor is blocked only if one was accepted lately. */
  lemma BlockedOnlyLately(arrivals: seq<Arrival>, now: int, l: Limits) returns (i: int)
    requires Blocked(After(NOTHING, arrivals, l), now, l)
    ensures 0 <= i < |arrivals| && AcceptedAt(NOTHING, arrivals, l, i) && now - arrivals[i].now <= l.stale
  {
    i := ReceivedIsAccepted(arrivals, l);
  }

  /** The end of speech blocks for the hangover, unless the floor goes stale first. */
  lemma EndOfSpeechBlocks(f: Floor, t: Transition, at: int, now: int, l: Limits)
    requires Judged(f, t, at, l).Accepted? && (t.heard.Silence? || t.heard.Idle?) && (f.speech || t.speechEnd)
    requires at <= now
    ensures Blocked(Applied(f, t, at, l), now, l) <==> now - at < l.hangover && now - at <= l.stale
  {
  }

  /** Reports that are not accepted do not cut it short or draw it out. */
  lemma {:induction false} RefusedChangeNothing(f: Floor, arrivals: seq<Arrival>, l: Limits)
    requires forall i | 0 <= i < |arrivals| :: !Judged(f, arrivals[i].t, arrivals[i].now, l).Accepted?
    ensures After(f, arrivals, l) == f
    decreases |arrivals|
  {
    if arrivals != [] {
      assert forall i | 0 <= i < |arrivals[1..]| :: arrivals[1..][i] == arrivals[i + 1];
      RefusedChangeNothing(f, arrivals[1..], l);
    }
  }

  /** So after an accepted end of speech, until another report is accepted, the floor is blocked exactly for the
      hangover or until it goes stale. */
  lemma {:induction false} HangoverHolds(f: Floor, t: Transition, at: int, arrivals: seq<Arrival>, now: int, l: Limits)
    requires Judged(f, t, at, l).Accepted? && (t.heard.Silence? || t.heard.Idle?) && (f.speech || t.speechEnd)
    requires forall i | 0 <= i < |arrivals| :: !Judged(Applied(f, t, at, l), arrivals[i].t, arrivals[i].now, l).Accepted?
    requires at <= now
    ensures Blocked(After(f, [Arrival(t, at)] + arrivals, l), now, l) <==> now - at < l.hangover && now - at <= l.stale
  {
    var all := [Arrival(t, at)] + arrivals;
    assert all[1..] == arrivals;
    RefusedChangeNothing(Applied(f, t, at, l), arrivals, l);
    EndOfSpeechBlocks(f, t, at, now, l);
  }

  /** Heard speech blocks: after an accepted report of it, until another is accepted, the floor is taken for as long as it
      does not go stale. */
  lemma {:induction false} SpeechBlocks(f: Floor, t: Transition, at: int, arrivals: seq<Arrival>, now: int, l: Limits)
    requires Judged(f, t, at, l).Accepted? && t.heard.Speech?
    requires forall i | 0 <= i < |arrivals| :: !Judged(Applied(f, t, at, l), arrivals[i].t, arrivals[i].now, l).Accepted?
    ensures var g := After(f, [Arrival(t, at)] + arrivals, l);
            && (Blocked(g, now, l) <==> now - at <= l.stale)
            && StatusOf(g, now, l) == if now - at <= l.stale then Speaking else Unknown
  {
    var all := [Arrival(t, at)] + arrivals;
    assert all[1..] == arrivals;
    RefusedChangeNothing(Applied(f, t, at, l), arrivals, l);
  }

  /** An accepted report of neither speech nor its end does not block: silence leaves an earlier hangover to run out, and
      anything else clears it. */
  lemma QuietDoesNotBlock(f: Floor, t: Transition, at: int, now: int, l: Limits)
    requires Judged(f, t, at, l).Accepted? && !t.heard.Speech? && !f.speech && !t.speechEnd && at <= now
    ensures Blocked(Applied(f, t, at, l), now, l)
       <==> !t.heard.Other? && f.releaseAt.Some? && now < f.releaseAt.value && now - at <= l.stale
  {
  }

  /** The floor is acquired exactly when speech is reported that the same owner was not known to be speaking. */
  lemma AcquiredIff(f: Floor, t: Transition, now: int, l: Limits)
    requires Judged(f, t, now, l).Accepted?
    ensures Judged(f, t, now, l).acquired
       <==> t.heard.Speech? && !(f.owner == Some(t.owner) && StatusOf(f, now, l) == Speaking)
  {
  }
}
