// Virtual mailboxes that merge others (src/ws_collab/service.py, `mailbox_messages` and
// `_apply_filter_rules`): for any graph of merges, cyclic or not, what a reader gets.
module MergeMailboxes {
  import opened Sequences

  const MAX_SCAN: nat := 100000

  /** A message, the rank of its time stamp and the mailboxes that forwarded it. */
  datatype Message = Message(body: nat, time: int, via: seq<string>)

  datatype Rule = Rule(matches: Message -> bool, relay: bool)

  /** `All` merges every visible stream that is not virtual. */
  datatype Source = Own(records: seq<Message>) | Merge(of: seq<string>) | All

  datatype Virtual = Virtual(source: Source, rules: seq<Rule>, relayByDefault: bool)

  datatype Graph = Graph(virtual: map<string, Virtual>, streams: map<string, seq<Message>>, visible: seq<string>)

  // ---------------------------------------------------------------- filters

  function FirstMatch(rules: seq<Rule>, byDefault: bool, m: Message): bool {
    if rules == [] then byDefault
    else if rules[0].matches(m) then rules[0].relay
    else FirstMatch(rules[1..], byDefault, m)
  }

  /** The first rule that matches decides; without any rules everything is relayed. */
  function Relays(v: Virtual, m: Message): bool {
    v.rules == [] || FirstMatch(v.rules, v.relayByDefault, m)
  }

  function Filtered(v: Virtual, messages: seq<Message>): seq<Message> {
    if messages == [] then []
    else (if Relays(v, messages[0]) then [messages[0]] else []) + Filtered(v, messages[1..])
  }

  lemma {:induction false} FilteredAll(v: Virtual, messages: seq<Message>)
    requires v.rules == []
    ensures Filtered(v, messages) == messages
  {
    if messages != [] {
      FilteredAll(v, messages[1..]);
    }
  }

  /** Rule k is the first that matches. */
  predicate Decides(rules: seq<Rule>, k: nat, m: Message)
    requires k < |rules|
  {
    rules[k].matches(m) && forall j | 0 <= j < k :: !rules[j].matches(m)
  }

  /** There are no rules; or the first rule that matches relays; or none matches, and that is the policy. */
  predicate Passes(v: Virtual, m: Message) {
    || v.rules == []
    || (exists k | 0 <= k < |v.rules| :: Decides(v.rules, k, m) && v.rules[k].relay)
    || (v.relayByDefault && forall k | 0 <= k < |v.rules| :: !v.rules[k].matches(m))
  }

  lemma {:induction false} FirstMatchIs(rules: seq<Rule>, byDefault: bool, m: Message, k: nat)
    requires k <= |rules| && forall j | 0 <= j < k :: !rules[j].matches(m)
    requires k < |rules| ==> rules[k].matches(m)
    ensures FirstMatch(rules, byDefault, m) == if k < |rules| then rules[k].relay else byDefault
  {
    if k > 0 {
      FirstMatchIs(rules[1..], byDefault, m, k - 1);
    }
  }

  /** What a filter relays. */
  lemma RelaysIff(v: Virtual, m: Message)
    ensures Relays(v, m) <==> Passes(v, m)
  {
    if k :| 0 <= k < |v.rules| && Decides(v.rules, k, m) {
      FirstMatchIs(v.rules, v.relayByDefault, m, k);
      assert forall j | 0 <= j < |v.rules| && Decides(v.rules, j, m) :: j == k;
    } else {
      NoneDecides(v.rules, m, |v.rules|);
      FirstMatchIs(v.rules, v.relayByDefault, m, |v.rules|);
    }
  }

  lemma {:induction false} NoneDecides(rules: seq<Rule>, m: Message, n: nat)
    requires n <= |rules| && forall k | 0 <= k < |rules| :: !Decides(rules, k, m)
    ensures forall k | 0 <= k < n :: !rules[k].matches(m)
  {
    if n > 0 {
      NoneDecides(rules, m, n - 1);
      assert !Decides(rules, n - 1, m);
    }
  }

  lemma {:induction false} FilteredIs(v: Virtual, messages: seq<Message>)
    ensures Filtered(v, messages) == Filter(m => Passes(v, m), messages)
  {
    if messages != [] {
      RelaysIff(v, messages[0]);
      FilteredIs(v, messages[1..]);
    }
  }

  /** Exactly the messages that pass stay, in order. */
  lemma {:induction false} FilteredSelects(v: Virtual, messages: seq<Message>) returns (places: seq<nat>)
    ensures Selects(messages, (n: nat) => n < |messages| && Passes(v, messages[n]), Filtered(v, messages), places)
  {
    FilteredIs(v, messages);
    places := FilterSelects(m => Passes(v, m), messages);
  }

  method ApplyFilterRules(v: Virtual, messages: seq<Message>) returns (out: seq<Message>, ghost places: seq<nat>)
    ensures out == Filtered(v, messages)
    ensures Selects(messages, (n: nat) => n < |messages| && Passes(v, messages[n]), out, places)
  {
    places := FilteredSelects(v, messages);
    if v.rules == [] {
      FilteredAll(v, messages);
      return messages, places;
    }
    out := [];
    for i := 0 to |messages|
      invariant out + Filtered(v, messages[i..]) == Filtered(v, messages)
    {
      var rest := messages[i..];
      assert rest[0] == messages[i] && rest[1..] == messages[i + 1..];
      var relay := Decide(v, messages[i]);
      if relay {
        Associates(out, [messages[i]], Filtered(v, messages[i + 1..]));
        out := out + [messages[i]];
      }
    }
  }

  method Decide(v: Virtual, m: Message) returns (relay: bool)
    requires v.rules != []
    ensures relay == Relays(v, m)
  {
    relay := v.relayByDefault;
    for k := 0 to |v.rules|
      invariant relay == v.relayByDefault
      invariant FirstMatch(v.rules[k..], v.relayByDefault, m) == Relays(v, m)
    {
      if v.rules[k].matches(m) {
        return v.rules[k].relay;
      }
    }
  }

  /** Everything the mailbox has not forwarded before, with the mailbox added to the forwarders. */
  function Stamped(name: string, messages: seq<Message>): seq<Message> {
    if messages == [] then []
    else
      var m := messages[0];
      (if name in m.via then [] else [m.(via := m.via + [name])]) + Stamped(name, messages[1..])
  }

  // ---------------------------------------------------------------- order and limits

  /** A message put after every message that is not later. */
  function Inserted(messages: seq<Message>, m: Message): seq<Message> {
    if messages == [] || messages[|messages| - 1].time <= m.time then messages + [m]
    else Inserted(messages[..|messages| - 1], m) + messages[|messages| - 1..]
  }

  /** Stable sorting by time. */
  function Sorted(messages: seq<Message>): seq<Message> {
    if messages == [] then [] else Inserted(Sorted(messages[..|messages| - 1]), messages[|messages| - 1])
  }

  function Last(messages: seq<Message>, count: int): seq<Message> {
    if 0 <= count <= |messages| then messages[|messages| - count..] else messages
  }

  function Least(a: int, b: int): int {
    if a < b then a else b
  }

  // ---------------------------------------------------------------- reading

  function SourcesOf(g: Graph, source: Source): seq<string>
    requires !source.Own?
  {
    match source
    case Merge(of) => of
    case All => g.visible
  }

  /** Only a virtual mailbox can be in the way of its own reading. */
  predicate Free(g: Graph, name: string, chain: set<string>) {
    name in g.virtual ==> name !in chain
  }

  lemma Shrinks(g: Graph, name: string, chain: set<string>)
    requires name in g.virtual && name !in chain
    ensures |g.virtual.Keys - (chain + {name})| < |g.virtual.Keys - chain|
  {
    assert g.virtual.Keys - chain == (g.virtual.Keys - (chain + {name})) + {name};
  }

  function Relayed(g: Graph, name: string, messages: seq<Message>): seq<Message>
    requires name in g.virtual
  {
    Stamped(name, Filtered(g.virtual[name], messages))
  }

  /** Everything a mailbox holds or forwards; `chain` holds the virtual mailboxes being read. */
  function Produced(g: Graph, name: string, chain: set<string>): seq<Message>
    requires Free(g, name, chain)
    decreases |g.virtual.Keys - chain|, 0
  {
    if name in g.virtual then
      var v := g.virtual[name];
      Shrinks(g, name, chain);
      Relayed(g, name, if v.source.Own? then v.source.records
                       else Sorted(Gathered(g, SourcesOf(g, v.source), chain + {name})))
    else if name in g.streams then g.streams[name]
    else []
  }

  /** At most `limit` messages of a mailbox, the latest; a virtual mailbox already being read is empty. */
  function Read(g: Graph, name: string, limit: int, chain: set<string>): seq<Message>
    decreases |g.virtual.Keys - chain|, 1
  {
    if !Free(g, name, chain) then []
    else if name in g.virtual then
      if limit > 0 then Last(Produced(g, name, chain), Least(limit, MAX_SCAN)) else Produced(g, name, chain)
    else Last(Produced(g, name, chain), if limit < 1 then 1 else Least(limit, MAX_SCAN))
  }

  /** The messages of several sources, those being read left out. */
  function Gathered(g: Graph, sources: seq<string>, chain: set<string>): seq<Message>
    decreases |g.virtual.Keys - chain|, 2 + |sources|
  {
    if sources == [] then []
    else
      (if sources[0] in chain then [] else Read(g, sources[0], MAX_SCAN, chain)) + Gathered(g, sources[1..], chain)
  }

  lemma {:induction false} GatheredNext(g: Graph, sources: seq<string>, i: nat, chain: set<string>)
    requires i < |sources|
    ensures Gathered(g, sources[i..], chain) ==
              if sources[i] in chain then Gathered(g, sources[i + 1..], chain)
              else Read(g, sources[i], MAX_SCAN, chain) + Gathered(g, sources[i + 1..], chain)
  {
    var rest := sources[i..];
    assert rest[0] == sources[i] && rest[1..] == sources[i + 1..];
  }

  lemma {:induction false} StampedNext(name: string, messages: seq<Message>, i: nat)
    requires i < |messages|
    ensures var m := messages[i];
            Stamped(name, messages[i..])
            == (if name in m.via then [] else [m.(via := m.via + [name])]) + Stamped(name, messages[i + 1..])
  {
    var rest := messages[i..];
    assert rest[0] == messages[i] && rest[1..] == messages[i + 1..];
  }

  method Stamp(name: string, messages: seq<Message>) returns (relayed: seq<Message>)
    ensures relayed == Stamped(name, messages)
  {
    relayed := [];
    for i := 0 to |messages|
      invariant relayed + Stamped(name, messages[i..]) == Stamped(name, messages)
    {
      var m := messages[i];
      StampedNext(name, messages, i);
      if name !in m.via {
        Associates(relayed, [m.(via := m.via + [name])], Stamped(name, messages[i + 1..]));
        relayed := relayed + [m.(via := m.via + [name])];
      }
    }
  }

  /** What a reader asks for: which events of a stream to look among, the sender and recipients, and the text. */
  datatype Query = Query(among: Message -> bool, fields: Message -> bool, text: Message -> bool)

  const EVERYTHING: Query := Query(m => true, m => true, m => true)

  /** What a reader gets: of a virtual mailbox the latest with the text; of a stream those that match among the latest
      looked among. */
  function Answer(g: Graph, name: string, limit: int, query: Query, chain: set<string>): seq<Message> {
    if !Free(g, name, chain) then []
    else if name in g.virtual then
      var matching := Filter(query.text, Produced(g, name, chain));
      if limit > 0 then Last(matching, Least(limit, MAX_SCAN)) else matching
    else
      Filter(m => query.fields(m) && query.text(m),
             Last(Filter(query.among, Produced(g, name, chain)), if limit < 1 then 1 else Least(limit, MAX_SCAN)))
  }

  lemma {:induction false} AnswerEverything(g: Graph, name: string, limit: int, chain: set<string>)
    ensures Answer(g, name, limit, EVERYTHING, chain) == Read(g, name, limit, chain)
  {
    if Free(g, name, chain) {
      var count := if limit < 1 then 1 else Least(limit, MAX_SCAN);
      FilterAll(EVERYTHING.text, Produced(g, name, chain));
      FilterAll(EVERYTHING.among, Produced(g, name, chain));
      FilterAll(m => EVERYTHING.fields(m) && EVERYTHING.text(m), Last(Produced(g, name, chain), count));
    }
  }

  /** Reading ends for every graph, and gives what `Answer` says. */
  method MailboxMessages(g: Graph, name: string, limit: int, query: Query, chain: set<string>)
    returns (messages: seq<Message>)
    ensures messages == Answer(g, name, limit, query, chain)
    decreases |g.virtual.Keys - chain|
  {
    if name in g.virtual {
      if name in chain {
        return [];
      }
      var v := g.virtual[name];
      var child := chain + {name};
      Shrinks(g, name, chain);
      if v.source.Own? {
        messages := v.source.records;
      } else {
        var merged, sources := [], SourcesOf(g, v.source);
        assert sources[0..] == sources;
        for i := 0 to |sources|
          invariant merged + Gathered(g, sources[i..], child) == Gathered(g, sources, child)
        {
          GatheredNext(g, sources, i, child);
          if sources[i] == name || sources[i] in child {
            continue;
          }
          var more := MailboxMessages(g, sources[i], MAX_SCAN, EVERYTHING, child);
          AnswerEverything(g, sources[i], MAX_SCAN, child);
          Associates(merged, more, Gathered(g, sources[i + 1..], child));
          merged := merged + more;
        }
        assert merged + [] == merged == Gathered(g, sources, child);
        messages := Sorted(merged);
      }
      ghost var places;
      messages, places := ApplyFilterRules(v, messages);
      messages := Stamp(name, messages);
      messages := Filter(query.text, messages);
      if limit > 0 {
        messages := Last(messages, Least(limit, MAX_SCAN));
      }
    } else if name in g.streams {
      messages := Last(Filter(query.among, g.streams[name]), if limit < 1 then 1 else Least(limit, MAX_SCAN));
      messages := Filter(m => query.fields(m) && query.text(m), messages);
    } else {
      messages := [];
    }
  }

  // ---------------------------------------------------------------- merge paths

  /** The sources a mailbox merges; none if it is a leaf. */
  function Sources(g: Graph, name: string): seq<string> {
    if name in g.virtual && !g.virtual[name].source.Own? then SourcesOf(g, g.virtual[name].source) else []
  }

  predicate IsLeaf(g: Graph, name: string) {
    name in g.virtual ==> g.virtual[name].source.Own?
  }

  /** The messages a leaf holds itself. */
  function Held(g: Graph, name: string): seq<Message> {
    if name in g.virtual then (if g.virtual[name].source.Own? then g.virtual[name].source.records else [])
    else if name in g.streams then g.streams[name]
    else []
  }

  /** A path goes down from a mailbox to a leaf, at each merge taking one of its sources. A simple path never
      meets a virtual mailbox twice. */
  predicate IsPath(g: Graph, name: string, path: seq<nat>, chain: set<string>)
    decreases |path|
  {
    && Free(g, name, chain)
    && if IsLeaf(g, name) then path == []
       else
         && path != [] && path[0] < |Sources(g, name)|
         && Sources(g, name)[path[0]] !in chain + {name}
         && IsPath(g, Sources(g, name)[path[0]], path[1..], chain + {name})
  }

  /** The leaf at the end of a path. */
  function LeafOf(g: Graph, name: string, path: seq<nat>): string
    decreases |path|
  {
    if path != [] && path[0] < |Sources(g, name)| then LeafOf(g, Sources(g, name)[path[0]], path[1..]) else name
  }

  /** The virtual mailboxes along a path, from the leaf up. */
  function Route(g: Graph, name: string, path: seq<nat>): seq<string>
    decreases |path|
  {
    (if path != [] && path[0] < |Sources(g, name)| then Route(g, Sources(g, name)[path[0]], path[1..]) else [])
    + if name in g.virtual then [name] else []
  }

  /** A message of the leaf carried up the path, if the filter of every mailbox on the way relays it as it
      stands then. */
  function Carried(g: Graph, name: string, path: seq<nat>, m: Message): Option<Message>
    decreases |path|
  {
    var below := if path != [] && path[0] < |Sources(g, name)| then Carried(g, Sources(g, name)[path[0]], path[1..], m)
                 else Some(m);
    if below.None? || name !in g.virtual then below
    else if Relays(g.virtual[name], below.value) then Some(below.value.(via := below.value.via + [name]))
    else None
  }

  function CarriedAll(g: Graph, name: string, path: seq<nat>, messages: seq<Message>): seq<Message> {
    if messages == [] then []
    else
      var m := Carried(g, name, path, messages[0]);
      (if m.Some? then [m.value] else []) + CarriedAll(g, name, path, messages[1..])
  }

  /** What arrives along one path. */
  function Along(g: Graph, name: string, path: seq<nat>): seq<Message> {
    CarriedAll(g, name, path, Held(g, LeafOf(g, name, path)))
  }

  predicate NoRepeats<T(==)>(s: seq<T>) {
    forall i, j | 0 <= i < j < |s| :: s[i] != s[j]
  }

  /** A simple path meets no virtual mailbox twice, and none that was being read before. */
  lemma {:induction false} RouteIsSimple(g: Graph, name: string, path: seq<nat>, chain: set<string>)
    requires IsPath(g, name, path, chain)
    ensures NoRepeats(Route(g, name, path)) && forall n | n in Route(g, name, path) :: n !in chain
    decreases |path|
  {
    if !IsLeaf(g, name) {
      RouteIsSimple(g, Sources(g, name)[path[0]], path[1..], chain + {name});
    }
  }

  /** A message that held no forwarders at the leaf arrives with exactly the route of its path as its
      forwarders, so no mailbox ever finds itself among them. */
  lemma {:induction false} ForwardersAreRoute(g: Graph, name: string, path: seq<nat>, chain: set<string>, m: Message)
    requires IsPath(g, name, path, chain) && m.via == []
    ensures var c := Carried(g, name, path, m); c.Some? ==> c.value == m.(via := Route(g, name, path))
    decreases |path|
  {
    if !IsLeaf(g, name) {
      ForwardersAreRoute(g, Sources(g, name)[path[0]], path[1..], chain + {name}, m);
    }
  }

  // ---------------------------------------------------------------- every path once

  function Under(i: nat, paths: seq<seq<nat>>): seq<seq<nat>> {
    seq(|paths|, k requires 0 <= k < |paths| => [i] + paths[k])
  }

  /** All simple paths from a mailbox. */
  function Paths(g: Graph, name: string, chain: set<string>): seq<seq<nat>>
    requires Free(g, name, chain)
    decreases |g.virtual.Keys - chain|, 0
  {
    if IsLeaf(g, name) then [[]]
    else
      Shrinks(g, name, chain);
      PathsFrom(g, Sources(g, name), 0, chain + {name})
  }

  function PathsFrom(g: Graph, sources: seq<string>, i: nat, chain: set<string>): seq<seq<nat>>
    requires i <= |sources|
    decreases |g.virtual.Keys - chain|, 1 + |sources| - i
  {
    if i == |sources| then []
    else
      (if sources[i] in chain then [] else Under(i, Paths(g, sources[i], chain))) + PathsFrom(g, sources, i + 1, chain)
  }

  predicate StepsTo(sources: seq<string>, i: nat, chain: set<string>, g: Graph, path: seq<nat>) {
    && path != [] && i <= path[0] < |sources| && sources[path[0]] !in chain
    && IsPath(g, sources[path[0]], path[1..], chain)
  }

  /** `Paths` lists exactly the simple paths. */
  lemma {:induction false} PathsAreExact(g: Graph, name: string, chain: set<string>, path: seq<nat>)
    requires Free(g, name, chain)
    ensures path in Paths(g, name, chain) <==> IsPath(g, name, path, chain)
    decreases |g.virtual.Keys - chain|, 0
  {
    if !IsLeaf(g, name) {
      Shrinks(g, name, chain);
      PathsFromAreExact(g, Sources(g, name), 0, chain + {name}, path);
    }
  }

  lemma {:induction false} PathsFromAreExact(g: Graph, sources: seq<string>, i: nat, chain: set<string>, path: seq<nat>)
    requires i <= |sources|
    ensures path in PathsFrom(g, sources, i, chain) <==> StepsTo(sources, i, chain, g, path)
    decreases |g.virtual.Keys - chain|, 1 + |sources| - i
  {
    if i < |sources| {
      PathsFromAreExact(g, sources, i + 1, chain, path);
      if sources[i] !in chain {
        var paths := Paths(g, sources[i], chain);
        if path != [] {
          PathsAreExact(g, sources[i], chain, path[1..]);
        }
        UnderHas(i, paths, path);
      }
    }
  }

  lemma UnderHas(i: nat, paths: seq<seq<nat>>, path: seq<nat>)
    ensures path in Under(i, paths) <==> path != [] && path[0] == i && path[1..] in paths
  {
    if path != [] && path[0] == i && path[1..] in paths {
      var k :| 0 <= k < |paths| && paths[k] == path[1..];
      assert Under(i, paths)[k] == path;
    }
    if path in Under(i, paths) {
      var k :| 0 <= k < |paths| && path == [i] + paths[k];
      assert path[1..] == paths[k];
    }
  }

  lemma {:induction false} PathsAreDistinct(g: Graph, name: string, chain: set<string>)
    requires Free(g, name, chain)
    ensures NoRepeats(Paths(g, name, chain))
    decreases |g.virtual.Keys - chain|, 0
  {
    if !IsLeaf(g, name) {
      Shrinks(g, name, chain);
      PathsFromAreDistinct(g, Sources(g, name), 0, chain + {name});
    }
  }

  lemma {:induction false} PathsFromAreDistinct(g: Graph, sources: seq<string>, i: nat, chain: set<string>)
    requires i <= |sources|
    ensures NoRepeats(PathsFrom(g, sources, i, chain))
    decreases |g.virtual.Keys - chain|, 1 + |sources| - i
  {
    if i < |sources| {
      PathsFromAreDistinct(g, sources, i + 1, chain);
      if sources[i] !in chain {
        var here, later := Under(i, Paths(g, sources[i], chain)), PathsFrom(g, sources, i + 1, chain);
        PathsAreDistinct(g, sources[i], chain);
        UnderIsDistinct(i, Paths(g, sources[i], chain));
        LaterStartLater(g, sources, i + 1, chain);
        BothDistinct(i, here, later);
      }
    }
  }

  predicate StartAt(paths: seq<seq<nat>>, i: nat) {
    forall k | 0 <= k < |paths| :: paths[k] != [] && paths[k][0] >= i
  }

  lemma {:induction false} LaterStartLater(g: Graph, sources: seq<string>, i: nat, chain: set<string>)
    requires i <= |sources|
    ensures StartAt(PathsFrom(g, sources, i, chain), i)
  {
    var paths := PathsFrom(g, sources, i, chain);
    forall k | 0 <= k < |paths|
      ensures paths[k] != [] && paths[k][0] >= i
    {
      PathsFromAreExact(g, sources, i, chain, paths[k]);
    }
  }

  lemma BothDistinct(i: nat, a: seq<seq<nat>>, b: seq<seq<nat>>)
    requires NoRepeats(a) && NoRepeats(b)
    requires forall k | 0 <= k < |a| :: a[k] != [] && a[k][0] == i
    requires StartAt(b, i + 1)
    ensures NoRepeats(a + b)
  {
  }

  lemma UnderIsDistinct(i: nat, paths: seq<seq<nat>>)
    requires NoRepeats(paths)
    ensures NoRepeats(Under(i, paths))
  {
    forall a, b | 0 <= a < b < |paths|
      ensures Under(i, paths)[a] != Under(i, paths)[b]
    {
      assert Under(i, paths)[a][1..] == paths[a] && Under(i, paths)[b][1..] == paths[b];
    }
  }

  // ---------------------------------------------------------------- exactness

  /** No message has been forwarded yet where it is held. */
  predicate Unforwarded(messages: seq<Message>) {
    forall i | 0 <= i < |messages| :: messages[i].via == []
  }

  ghost predicate Fresh(g: Graph) {
    forall name :: Unforwarded(Held(g, name))
  }

  lemma {:induction false} RelayedConcat(g: Graph, name: string, a: seq<Message>, b: seq<Message>)
    requires name in g.virtual
    ensures Relayed(g, name, a + b) == Relayed(g, name, a) + Relayed(g, name, b)
  {
    if a == [] {
      assert a + b == b;
    } else {
      var all, rest := a + b, a[1..];
      assert all[0] == a[0] && all[1..] == rest + b;
      RelayedConcat(g, name, rest, b);
      RelayedFirst(g, name, all);
      RelayedFirst(g, name, a);
      Associates(RelayedOne(g, name, a[0]), Relayed(g, name, rest), Relayed(g, name, b));
    }
  }

  function RelayedOne(g: Graph, name: string, m: Message): seq<Message>
    requires name in g.virtual
  {
    if Relays(g.virtual[name], m) && name !in m.via then [m.(via := m.via + [name])] else []
  }

  lemma RelayedFirst(g: Graph, name: string, messages: seq<Message>)
    requires name in g.virtual && messages != []
    ensures Relayed(g, name, messages) == RelayedOne(g, name, messages[0]) + Relayed(g, name, messages[1..])
  {
    var v, m := g.virtual[name], messages[0];
    var rest := Filtered(v, messages[1..]);
    if Relays(v, m) {
      var all := [m] + rest;
      assert all[0] == m && all[1..] == rest;
      assert Filtered(v, messages) == all;
    } else {
      assert Filtered(v, messages) == rest;
    }
  }

  lemma RelayedWithout(g: Graph, name: string, messages: seq<Message>, j: nat)
    requires name in g.virtual && j < |messages|
    ensures multiset(Relayed(g, name, messages))
         == multiset(RelayedOne(g, name, messages[j])) + multiset(Relayed(g, name, messages[..j] + messages[j + 1..]))
  {
    var a, b := messages[..j], messages[j + 1..];
    var tail := [messages[j]] + b;
    assert messages == a + tail && tail[1..] == b;
    RelayedConcat(g, name, a, tail);
    RelayedFirst(g, name, tail);
    RelayedConcat(g, name, a, b);
  }

  lemma SameWithout(a: seq<Message>, b: seq<Message>, j: nat)
    requires a != [] && j < |b| && b[j] == a[0] && multiset(a) == multiset(b)
    ensures multiset(a[1..]) == multiset(b[..j] + b[j + 1..])
  {
    assert a == [a[0]] + a[1..];
    assert b == b[..j] + ([b[j]] + b[j + 1..]);
    assert multiset(a[1..]) == multiset(a) - multiset{a[0]};
    assert multiset(b[..j] + b[j + 1..]) == multiset(b) - multiset{b[j]};
  }

  /** What is forwarded does not depend on the order it came in. */
  lemma {:induction false} RelayedPermutes(g: Graph, name: string, a: seq<Message>, b: seq<Message>)
    requires name in g.virtual && multiset(a) == multiset(b)
    ensures multiset(Relayed(g, name, a)) == multiset(Relayed(g, name, b))
    decreases |a|
  {
    if a == [] {
      assert |b| == |multiset(b)| == 0;
    } else {
      assert a[0] in multiset(b);
      var j :| 0 <= j < |b| && b[j] == a[0];
      SameWithout(a, b, j);
      RelayedPermutes(g, name, a[1..], b[..j] + b[j + 1..]);
      RelayedFirst(g, name, a);
      RelayedWithout(g, name, b, j);
    }
  }

  lemma {:induction false} InsertedPermutes(messages: seq<Message>, m: Message)
    ensures multiset(Inserted(messages, m)) == multiset(messages) + multiset{m}
  {
    if messages != [] && messages[|messages| - 1].time > m.time {
      InsertedPermutes(messages[..|messages| - 1], m);
      assert messages == messages[..|messages| - 1] + messages[|messages| - 1..];
    }
  }

  lemma {:induction false} SortedPermutes(messages: seq<Message>)
    ensures multiset(Sorted(messages)) == multiset(messages)
  {
    if messages != [] {
      var front := messages[..|messages| - 1];
      SortedPermutes(front);
      InsertedPermutes(Sorted(front), messages[|messages| - 1]);
      assert messages == front + [messages[|messages| - 1]];
    }
  }

  /** The messages of several paths, one path after the other. */
  function Delivered(g: Graph, name: string, paths: seq<seq<nat>>): seq<Message> {
    if paths == [] then [] else Along(g, name, paths[0]) + Delivered(g, name, paths[1..])
  }

  /** The same one step further down, before the mailbox itself filters. */
  function Incoming(g: Graph, sources: seq<string>, paths: seq<seq<nat>>): seq<Message>
    requires StepsInto(sources, paths)
  {
    if paths == [] then []
    else Along(g, sources[paths[0][0]], paths[0][1..]) + Incoming(g, sources, paths[1..])
  }

  predicate StepsInto(sources: seq<string>, paths: seq<seq<nat>>) {
    forall k | 0 <= k < |paths| :: paths[k] != [] && paths[k][0] < |sources|
  }

  lemma {:induction false} CarriedFromBelow(g: Graph, name: string, path: seq<nat>, chain: set<string>,
                                            messages: seq<Message>)
    requires IsPath(g, name, path, chain) && !IsLeaf(g, name) && Unforwarded(messages)
    ensures CarriedAll(g, name, path, messages)
         == Relayed(g, name, CarriedAll(g, Sources(g, name)[path[0]], path[1..], messages))
    decreases |messages|
  {
    if messages != [] {
      var below, m := Sources(g, name)[path[0]], messages[0];
      CarriedFromBelow(g, name, path, chain, messages[1..]);
      ForwardersAreRoute(g, below, path[1..], chain + {name}, m);
      RouteIsSimple(g, below, path[1..], chain + {name});
      var c, later := Carried(g, below, path[1..], m), CarriedAll(g, below, path[1..], messages[1..]);
      var all := CarriedAll(g, below, path[1..], messages);
      if c.Some? {
        assert all == [c.value] + later && all[1..] == later;
        RelayedFirst(g, name, all);
        assert name !in c.value.via;
      } else {
        assert all == later;
      }
    }
  }

  /** What a leaf of its own gives is what it holds, filtered. */
  lemma {:induction false} CarriedFromLeaf(g: Graph, name: string, messages: seq<Message>)
    requires name in g.virtual && Unforwarded(messages)
    ensures CarriedAll(g, name, [], messages) == Relayed(g, name, messages)
  {
    if messages != [] {
      CarriedFromLeaf(g, name, messages[1..]);
      RelayedFirst(g, name, messages);
    }
  }

  lemma {:induction false} CarriedFromStream(g: Graph, name: string, messages: seq<Message>)
    requires name !in g.virtual
    ensures CarriedAll(g, name, [], messages) == messages
  {
    if messages != [] {
      CarriedFromStream(g, name, messages[1..]);
    }
  }

  ghost predicate SimplePaths(g: Graph, name: string, paths: seq<seq<nat>>, chain: set<string>) {
    forall k | 0 <= k < |paths| :: IsPath(g, name, paths[k], chain)
  }

  lemma {:induction false} DeliveredFromIncoming(g: Graph, name: string, paths: seq<seq<nat>>, chain: set<string>)
    requires Fresh(g) && !IsLeaf(g, name) && SimplePaths(g, name, paths, chain)
    requires StepsInto(Sources(g, name), paths)
    ensures Delivered(g, name, paths) == Relayed(g, name, Incoming(g, Sources(g, name), paths))
    decreases |paths|
  {
    if paths != [] {
      var sources, path := Sources(g, name), paths[0];
      assert IsPath(g, name, path, chain);
      var here := Along(g, sources[path[0]], path[1..]);
      assert Unforwarded(Held(g, LeafOf(g, name, path)));
      CarriedFromBelow(g, name, path, chain, Held(g, LeafOf(g, name, path)));
      assert SimplePaths(g, name, paths[1..], chain) && StepsInto(sources, paths[1..]);
      DeliveredFromIncoming(g, name, paths[1..], chain);
      RelayedConcat(g, name, here, Incoming(g, sources, paths[1..]));
    }
  }

  lemma {:induction false} IncomingUnder(g: Graph, sources: seq<string>, i: nat, paths: seq<seq<nat>>)
    requires i < |sources|
    ensures StepsInto(sources, Under(i, paths))
    ensures Incoming(g, sources, Under(i, paths)) == Delivered(g, sources[i], paths)
    decreases |paths|
  {
    if paths != [] {
      IncomingUnder(g, sources, i, paths[1..]);
      assert Under(i, paths)[1..] == Under(i, paths[1..]);
      assert Under(i, paths)[0][1..] == paths[0];
    }
  }

  lemma {:induction false} IncomingConcat(g: Graph, sources: seq<string>, a: seq<seq<nat>>, b: seq<seq<nat>>)
    requires StepsInto(sources, a) && StepsInto(sources, b)
    ensures StepsInto(sources, a + b)
    ensures Incoming(g, sources, a + b) == Incoming(g, sources, a) + Incoming(g, sources, b)
    decreases |a|
  {
    if a == [] {
      assert a + b == b;
    } else {
      IncomingConcat(g, sources, a[1..], b);
      var all, first := a + b, Along(g, sources[a[0][0]], a[0][1..]);
      assert all[0] == a[0] && all[1..] == a[1..] + b;
      Associates(first, Incoming(g, sources, a[1..]), Incoming(g, sources, b));
    }
  }

  /** No source read on the way holds more than the ceiling, so that no limit cuts anything off. */
  ghost predicate Below(g: Graph, name: string, chain: set<string>)
    requires Free(g, name, chain)
    decreases |g.virtual.Keys - chain|
  {
    !IsLeaf(g, name) ==>
      forall n | n in Sources(g, name) && n !in chain + {name} ::
        Shrinks(g, name, chain);
        |Produced(g, n, chain + {name})| <= MAX_SCAN && Below(g, n, chain + {name})
  }

  lemma {:induction false} PathsStepInto(g: Graph, name: string, chain: set<string>)
    requires Free(g, name, chain) && !IsLeaf(g, name)
    ensures StepsInto(Sources(g, name), Paths(g, name, chain)) && SimplePaths(g, name, Paths(g, name, chain), chain)
  {
    var paths := Paths(g, name, chain);
    forall k | 0 <= k < |paths|
      ensures IsPath(g, name, paths[k], chain)
    {
      PathsAreExact(g, name, chain, paths[k]);
    }
  }

  /** A mailbox forwards, up to order, exactly what each simple merge path to it carries. */
  lemma {:induction false} ProducedIsDelivered(g: Graph, name: string, chain: set<string>)
    requires Free(g, name, chain) && Fresh(g) && Below(g, name, chain)
    ensures multiset(Produced(g, name, chain)) == multiset(Delivered(g, name, Paths(g, name, chain)))
    decreases |g.virtual.Keys - chain|, 0
  {
    if IsLeaf(g, name) {
      var held := Held(g, name);
      assert Unforwarded(held);
      assert Delivered(g, name, [[]]) == Along(g, name, []) + Delivered(g, name, [[]][1..]) == Along(g, name, []);
      if name in g.virtual {
        CarriedFromLeaf(g, name, held);
      } else {
        CarriedFromStream(g, name, held);
      }
    } else {
      var sources, child := Sources(g, name), chain + {name};
      var gathered, paths := Gathered(g, sources, child), Paths(g, name, chain);
      Shrinks(g, name, chain);
      PathsStepInto(g, name, chain);
      GatheredIsIncoming(g, name, 0, chain);
      assert sources[0..] == sources;
      SortedPermutes(gathered);
      RelayedPermutes(g, name, Sorted(gathered), Incoming(g, sources, paths));
      DeliveredFromIncoming(g, name, paths, chain);
    }
  }

  /** One more source in front, read in full. */
  lemma SourceInFront(g: Graph, sources: seq<string>, i: nat, child: set<string>)
    requires i < |sources| && sources[i] !in child && StepsInto(sources, PathsFrom(g, sources, i + 1, child))
    requires Read(g, sources[i], MAX_SCAN, child) == Produced(g, sources[i], child)
    requires multiset(Produced(g, sources[i], child)) == multiset(Delivered(g, sources[i], Paths(g, sources[i], child)))
    requires multiset(Gathered(g, sources[i + 1..], child)) == multiset(Incoming(g, sources, PathsFrom(g, sources, i + 1, child)))
    ensures StepsInto(sources, PathsFrom(g, sources, i, child))
    ensures multiset(Gathered(g, sources[i..], child)) == multiset(Incoming(g, sources, PathsFrom(g, sources, i, child)))
  {
    var under, later := Under(i, Paths(g, sources[i], child)), PathsFrom(g, sources, i + 1, child);
    assert PathsFrom(g, sources, i, child) == under + later;
    IncomingUnder(g, sources, i, Paths(g, sources[i], child));
    IncomingConcat(g, sources, under, later);
    GatheredNext(g, sources, i, child);
  }

  lemma SourceLeftOut(g: Graph, sources: seq<string>, i: nat, child: set<string>)
    requires i < |sources| && sources[i] in child
    ensures PathsFrom(g, sources, i, child) == PathsFrom(g, sources, i + 1, child)
    ensures Gathered(g, sources[i..], child) == Gathered(g, sources[i + 1..], child)
  {
    GatheredNext(g, sources, i, child);
  }

  lemma {:induction false} ReadInFull(g: Graph, name: string, chain: set<string>)
    requires Free(g, name, chain) && |Produced(g, name, chain)| <= MAX_SCAN
    ensures Read(g, name, MAX_SCAN, chain) == Produced(g, name, chain)
  {
  }

  lemma {:induction false} GatheredIsIncoming(g: Graph, name: string, i: nat, chain: set<string>)
    requires Free(g, name, chain) && !IsLeaf(g, name) && Fresh(g) && Below(g, name, chain)
    requires i <= |Sources(g, name)|
    ensures var sources, child := Sources(g, name), chain + {name};
            var paths := PathsFrom(g, sources, i, child);
            && StepsInto(sources, paths)
            && multiset(Gathered(g, sources[i..], child)) == multiset(Incoming(g, sources, paths))
    decreases |g.virtual.Keys - (chain + {name})|, 1 + |Sources(g, name)| - i
  {
    var sources, child := Sources(g, name), chain + {name};
    if i == |sources| {
      assert sources[i..] == [];
    } else {
      GatheredIsIncoming(g, name, i + 1, chain);
      if sources[i] in child {
        SourceLeftOut(g, sources, i, child);
      } else {
        Shrinks(g, name, chain);
        ReadInFull(g, sources[i], child);
        ProducedIsDelivered(g, sources[i], child);
        SourceInFront(g, sources, i, child);
      }
    }
  }

  /** What a reader of a virtual mailbox gets, in any graph of merges: up to order, for every simple merge path
      to the mailbox, each leaf message that every filter on the path relays, once. */
  lemma {:induction false} MailboxIsExact(g: Graph, name: string, path: seq<nat>)
    requires name in g.virtual && Fresh(g) && Below(g, name, {})
    ensures multiset(Read(g, name, 0, {})) == multiset(Delivered(g, name, Paths(g, name, {})))
    ensures NoRepeats(Paths(g, name, {}))
    ensures path in Paths(g, name, {}) <==> IsPath(g, name, path, {})
  {
    ProducedIsDelivered(g, name, {});
    PathsAreDistinct(g, name, {});
    PathsAreExact(g, name, {}, path);
  }

  // ---------------------------------------------------------------- order

  predicate Ordered(messages: seq<Message>) {
    forall i, j | 0 <= i < j < |messages| :: messages[i].time <= messages[j].time
  }

  lemma {:induction false} InsertedIsOrdered(messages: seq<Message>, m: Message)
    requires Ordered(messages)
    ensures Ordered(Inserted(messages, m))
    ensures forall x | x in Inserted(messages, m) :: x in messages || x == m
  {
    if messages != [] && messages[|messages| - 1].time > m.time {
      var front, last := messages[..|messages| - 1], messages[|messages| - 1];
      InsertedIsOrdered(front, m);
      forall i | 0 <= i < |Inserted(front, m)|
        ensures Inserted(front, m)[i].time <= last.time
      {
        assert Inserted(front, m)[i] in Inserted(front, m);
      }
    }
  }

  lemma {:induction false} SortedIsOrdered(messages: seq<Message>)
    ensures Ordered(Sorted(messages))
  {
    if messages != [] {
      SortedIsOrdered(messages[..|messages| - 1]);
      InsertedIsOrdered(Sorted(messages[..|messages| - 1]), messages[|messages| - 1]);
    }
  }

  function AtTime(time: int, messages: seq<Message>): seq<Message> {
    Filter((m: Message) => m.time == time, messages)
  }

  lemma {:induction false} InsertedIsStable(messages: seq<Message>, m: Message, time: int)
    requires Ordered(messages)
    ensures AtTime(time, Inserted(messages, m)) == AtTime(time, messages) + AtTime(time, [m])
  {
    if messages == [] || messages[|messages| - 1].time <= m.time {
      FilterConcat((x: Message) => x.time == time, messages, [m]);
    } else {
      var front, last := messages[..|messages| - 1], messages[|messages| - 1];
      InsertedIsStable(front, m, time);
      assert messages == front + [last] && messages[|messages| - 1..] == [last];
      StableBefore(time, front, m, Inserted(front, m), last);
    }
  }

  lemma {:induction false} StableBefore(time: int, front: seq<Message>, m: Message, inserted: seq<Message>, last: Message)
    requires m.time < last.time && AtTime(time, inserted) == AtTime(time, front) + AtTime(time, [m])
    ensures AtTime(time, inserted + [last]) == AtTime(time, front + [last]) + AtTime(time, [m])
  {
    var at := (x: Message) => x.time == time;
    FilterConcat(at, inserted, [last]);
    FilterConcat(at, front, [last]);
    FilterOne(at, m);
    FilterOne(at, last);
  }

  /** Messages of one time keep their order when sorted. */
  lemma {:induction false} SortedIsStable(messages: seq<Message>, time: int)
    ensures AtTime(time, Sorted(messages)) == AtTime(time, messages)
  {
    if messages != [] {
      var front, m := messages[..|messages| - 1], messages[|messages| - 1];
      SortedIsOrdered(front);
      SortedIsStable(front, time);
      InsertedIsStable(Sorted(front), m, time);
      assert messages == front + [m];
      FilterConcat((x: Message) => x.time == time, front, [m]);
    }
  }

  lemma {:induction false} RelayedIsOrdered(g: Graph, name: string, messages: seq<Message>)
    requires name in g.virtual && Ordered(messages)
    ensures Ordered(Relayed(g, name, messages))
    ensures messages != [] ==> forall x | x in Relayed(g, name, messages) :: messages[0].time <= x.time
  {
    if messages != [] {
      RelayedIsOrdered(g, name, messages[1..]);
      RelayedFirst(g, name, messages);
    }
  }

  /** A merge is read in the order of time, whatever the limit. */
  lemma {:induction false} MergeIsOrdered(g: Graph, name: string, limit: int, chain: set<string>)
    requires !IsLeaf(g, name)
    ensures Ordered(Read(g, name, limit, chain))
  {
    if Free(g, name, chain) {
      Shrinks(g, name, chain);
      var gathered := Gathered(g, Sources(g, name), chain + {name});
      SortedIsOrdered(gathered);
      RelayedIsOrdered(g, name, Sorted(gathered));
    }
  }

  lemma {:induction false} GatheredHas(g: Graph, sources: seq<string>, chain: set<string>, source: string, m: Message)
    requires source in sources && source !in chain && m in Read(g, source, MAX_SCAN, chain)
    ensures m in Gathered(g, sources, chain)
  {
    if sources[0] != source {
      GatheredHas(g, sources[1..], chain, source, m);
    }
  }

  lemma {:induction false} StampedHas(name: string, messages: seq<Message>, m: Message)
    requires m in messages && name !in m.via
    ensures m.(via := m.via + [name]) in Stamped(name, messages)
  {
    if messages[0] != m {
      StampedHas(name, messages[1..], m);
    }
  }

  /** A merge reads the mailboxes it lists, and one that merges all the visible ones: a message that a stream among them
      holds, if it passes the filter, is there with the mailbox as its forwarder. */
  lemma {:induction false} MergeReads(g: Graph, name: string, stream: string, m: Message)
    requires name in g.virtual && !g.virtual[name].source.Own? && Passes(g.virtual[name], m)
    requires stream in (match g.virtual[name].source case Merge(of) => of case _ => g.visible)
    requires stream !in g.virtual && stream in g.streams && |g.streams[stream]| <= MAX_SCAN
    requires m in g.streams[stream] && m.via == [] && stream != name
    ensures m.(via := [name]) in Read(g, name, 0, {})
  {
    var child := {} + {name};
    Shrinks(g, name, {});
    assert Read(g, stream, MAX_SCAN, child) == g.streams[stream];
    var gathered := Gathered(g, Sources(g, name), child);
    GatheredHas(g, Sources(g, name), child, stream, m);
    SortedPermutes(gathered);
    assert m in multiset(Sorted(gathered));
    FilteredIs(g.virtual[name], Sorted(gathered));
    FilterKeeps(x => Passes(g.virtual[name], x), Sorted(gathered), m);
    StampedHas(name, Filtered(g.virtual[name], Sorted(gathered)), m);
    assert m.via + [name] == [name];
  }

  lemma {:induction false} FilteredIsOrdered(p: Message -> bool, messages: seq<Message>)
    requires Ordered(messages)
    ensures Ordered(Filter(p, messages))
    ensures forall x | x in Filter(p, messages) :: x in messages
  {
    if messages != [] {
      FilteredIsOrdered(p, messages[1..]);
      forall x | x in Filter(p, messages[1..])
        ensures messages[0].time <= x.time
      {
        var i :| 0 <= i < |messages[1..]| && messages[1..][i] == x;
        assert messages[i + 1] == x;
      }
    }
  }

  /** Of a merge a reader gets the latest messages with its text: as many as the limit allows, and none that is left
      out is later than one that is kept. */
  lemma {:induction false} LimitKeepsLatest(g: Graph, name: string, limit: int, query: Query)
    requires !IsLeaf(g, name) && 0 < limit <= MAX_SCAN
    ensures var all, kept := Filter(query.text, Read(g, name, 0, {})), Answer(g, name, limit, query, {});
            && |kept| == Least(limit, |all|)
            && all == all[..|all| - |kept|] + kept
            && forall x, y | x in all[..|all| - |kept|] && y in kept :: x.time <= y.time
  {
    var all, kept := Filter(query.text, Read(g, name, 0, {})), Answer(g, name, limit, query, {});
    MergeIsOrdered(g, name, 0, {});
    FilteredIsOrdered(query.text, Read(g, name, 0, {}));
    assert kept == all[|all| - |kept|..];
    OrderedParts(all, |all| - |kept|);
  }

  lemma OrderedParts(messages: seq<Message>, cut: nat)
    requires Ordered(messages) && cut <= |messages|
    ensures forall x, y | x in messages[..cut] && y in messages[cut..] :: x.time <= y.time
  {
    var front, back := messages[..cut], messages[cut..];
    forall x, y | x in front && y in back
      ensures x.time <= y.time
    {
      var i :| 0 <= i < |front| && front[i] == x;
      var j :| 0 <= j < |back| && back[j] == y;
      assert messages[i] == x && messages[cut + j] == y;
    }
  }
}
