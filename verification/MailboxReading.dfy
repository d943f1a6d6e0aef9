// Which messages the reader of a mailbox gets (src/ws_collab/service.py, `mailbox_messages`).
module MailboxReading {
  import opened Sequences
  import opened MergeMailboxes

  /** The later places with a message that satisfies p. */
  function Later(p: Message -> bool, messages: seq<Message>, n: nat): set<nat> {
    set j: nat | n < j < |messages| && p(messages[j])
  }

  /** Of the last `count` that satisfy p, those that satisfy q. */
  predicate AmongLast(p: Message -> bool, q: Message -> bool, count: nat, messages: seq<Message>, n: nat) {
    n < |messages| && p(messages[n]) && q(messages[n]) && |Later(p, messages, n)| < count
  }

  function IsAmongLast(p: Message -> bool, q: Message -> bool, count: nat, messages: seq<Message>): nat -> bool {
    (n: nat) => AmongLast(p, q, count, messages, n)
  }

  lemma {:induction false} AmongLastSelects(p: Message -> bool, q: Message -> bool, count: nat, messages: seq<Message>)
    returns (places: seq<nat>)
    ensures Selects(messages, IsAmongLast(p, q, count, messages), Filter(q, Last(Filter(p, messages), count)), places)
  {
    if messages == [] {
      places := [];
    } else {
      var k, x := |messages| - 1, messages[|messages| - 1];
      var front, before := messages[..k], if p(x) && count > 0 then count - 1 else count;
      var so := AmongLastSelects(p, q, before, front);
      assert messages == front + [x];
      places := AmongLastNext(p, q, count, before, front, x, so);
    }
  }

  lemma {:induction false} AmongLastNext(p: Message -> bool, q: Message -> bool, count: nat, before: nat,
                                         front: seq<Message>, x: Message, so: seq<nat>)
    returns (places: seq<nat>)
    requires before == if p(x) && count > 0 then count - 1 else count
    requires Selects(front, IsAmongLast(p, q, before, front), Filter(q, Last(Filter(p, front), before)), so)
    ensures var all := front + [x];
            Selects(all, IsAmongLast(p, q, count, all), Filter(q, Last(Filter(p, all), count)), places)
  {
    var all, out := front + [x], Filter(q, Last(Filter(p, front), before));
    var picked := IsAmongLast(p, q, count, all);
    PickedBefore(p, q, count, before, front, x);
    LastIsPickedIff(p, q, count, front, x);
    LastFilterNext(p, q, count, front, x);
    PickedAlike(front, IsAmongLast(p, q, before, front), picked, out, so);
    SelectsNext(front, picked, out, so, x);
    places := if picked(|front|) then so + [|front|] else so;
  }

  lemma PickedBefore(p: Message -> bool, q: Message -> bool, count: nat, before: nat, front: seq<Message>, x: Message)
    requires before == if p(x) && count > 0 then count - 1 else count
    ensures forall n: nat | n < |front| ::
              IsAmongLast(p, q, before, front)(n) <==> IsAmongLast(p, q, count, front + [x])(n)
  {
    forall n: nat | n < |front|
      ensures AmongLast(p, q, before, front, n) <==> AmongLast(p, q, count, front + [x], n)
    {
      LaterNext(p, front, x, n);
    }
  }

  lemma LastIsPickedIff(p: Message -> bool, q: Message -> bool, count: nat, front: seq<Message>, x: Message)
    ensures IsAmongLast(p, q, count, front + [x])(|front|) <==> p(x) && q(x) && count > 0
  {
    assert Later(p, front + [x], |front|) == {};
  }

  lemma PickedAlike(xs: seq<Message>, a: nat -> bool, b: nat -> bool, out: seq<Message>, places: seq<nat>)
    requires Selects(xs, a, out, places) && forall n: nat | n < |xs| :: a(n) <==> b(n)
    ensures Selects(xs, b, out, places)
  {
  }

  lemma LaterNext(p: Message -> bool, front: seq<Message>, x: Message, n: nat)
    requires n < |front|
    ensures |Later(p, front + [x], n)| == |Later(p, front, n)| + (if p(x) then 1 else 0)
  {
    var all := front + [x];
    assert Later(p, all, n) == Later(p, front, n) + (if p(x) then {|front|} else {});
  }

  lemma {:induction false} LastFilterNext(p: Message -> bool, q: Message -> bool, count: nat, front: seq<Message>,
                                          x: Message)
    ensures var before := if p(x) && count > 0 then count - 1 else count;
            var added := if p(x) && count > 0 && q(x) then [x] else [];
            Filter(q, Last(Filter(p, front + [x]), count)) == Filter(q, Last(Filter(p, front), before)) + added
  {
    FilterConcat(p, front, [x]);
    FilterOne(p, x);
    FilterOne(q, x);
    if p(x) {
      LastPush(Filter(p, front), x, count);
      if count > 0 {
        FilterConcat(q, Last(Filter(p, front), count - 1), [x]);
      }
    } else {
      assert Filter(p, front + [x]) == Filter(p, front);
    }
  }

  lemma LastPush(kept: seq<Message>, x: Message, count: nat)
    ensures Last(kept + [x], count) == if count > 0 then Last(kept, count - 1) + [x] else Last(kept, 0)
  {
  }

  /** A virtual mailbox gives those with the text that have fewer than the limit such messages after them; without a
      limit, all with the text. */
  function OfVirtual(query: Query, limit: int, all: seq<Message>): nat -> bool {
    (n: nat) => && n < |all| && query.text(all[n])
                && (limit > 0 ==> |Later(query.text, all, n)| < Least(limit, MAX_SCAN))
  }

  /** A stream gives those that pass the filters and have fewer messages looked among after them than the limit, which is
      at least 1. */
  function OfStream(query: Query, limit: int, all: seq<Message>): nat -> bool {
    (n: nat) => && n < |all| && query.among(all[n]) && query.fields(all[n]) && query.text(all[n])
                && |Later(query.among, all, n)| < if limit < 1 then 1 else Least(limit, MAX_SCAN)
  }

  /** Which of the messages of a mailbox a reader gets, and in which order. */
  lemma {:induction false} AnswerSelects(g: Graph, name: string, limit: int, query: Query)
    returns (places: seq<nat>)
    ensures var all := Produced(g, name, {});
            Selects(all, if name in g.virtual then OfVirtual(query, limit, all) else OfStream(query, limit, all),
                    Answer(g, name, limit, query, {}), places)
  {
    var all := Produced(g, name, {});
    if name in g.virtual {
      places := VirtualSelects(query, limit, all);
    } else {
      places := StreamSelects(query, limit, all);
    }
  }

  lemma {:induction false} VirtualSelects(query: Query, limit: int, all: seq<Message>) returns (places: seq<nat>)
    ensures var matching := Filter(query.text, all);
            Selects(all, OfVirtual(query, limit, all),
                    if limit > 0 then Last(matching, Least(limit, MAX_SCAN)) else matching, places)
  {
    if limit > 0 {
      var most := Least(limit, MAX_SCAN);
      places := AmongLastSelects(query.text, m => true, most, all);
      FilterAll(m => true, Last(Filter(query.text, all), most));
      PickedAlike(all, IsAmongLast(query.text, m => true, most, all), OfVirtual(query, limit, all),
                  Last(Filter(query.text, all), most), places);
    } else {
      places := FilterSelects(query.text, all);
      PickedAlike(all, (n: nat) => n < |all| && query.text(all[n]), OfVirtual(query, limit, all),
                  Filter(query.text, all), places);
    }
  }

  lemma {:induction false} StreamSelects(query: Query, limit: int, all: seq<Message>) returns (places: seq<nat>)
    ensures var most := if limit < 1 then 1 else Least(limit, MAX_SCAN);
            Selects(all, OfStream(query, limit, all),
                    Filter(m => query.fields(m) && query.text(m), Last(Filter(query.among, all), most)), places)
  {
    var most, both := if limit < 1 then 1 else Least(limit, MAX_SCAN), (m: Message) => query.fields(m) && query.text(m);
    places := AmongLastSelects(query.among, both, most, all);
    PickedAlike(all, IsAmongLast(query.among, both, most, all), OfStream(query, limit, all),
                Filter(both, Last(Filter(query.among, all), most)), places);
  }
}
