/**
  Limits on JSON documents, checked twice: by a machine that follows the parser's events, and by a
  recursion over the finished tree.
*/
module JsonLimits {
  import opened Base

  datatype Limits = Limits(depth: nat, nodes: nat, bytes: nat)

  type Text = seq<byte>

  /** A document as it is written: an object may repeat a key. */
  datatype Json =
    | String(text: Text)
    | Plain
    | Array(items: Items)
    | Object(members: Members)

  datatype Items = NoItems | Item(head: Json, tail: Items)

  datatype Members = NoMembers | Member(key: Text, value: Json, rest: Members)

  // ---------- The recursion ----------

  /** `validate_json_tree_impl`: the node count after `j`, or none when a limit is exceeded. */
  function Validate(j: Json, depth: nat, nodes: nat, limits: Limits): Option<nat> {
    match j
    case String(text) =>
      if nodes + 1 > limits.nodes || |text| > limits.bytes then None else Some(nodes + 1)
    case Plain => if nodes + 1 > limits.nodes then None else Some(nodes + 1)
    case Array(items) =>
      if depth >= limits.depth || nodes + 1 > limits.nodes then None
      else ValidateItems(items, depth + 1, nodes + 1, limits)
    case Object(members) =>
      if depth >= limits.depth || nodes + 1 > limits.nodes then None
      else ValidateMembers(members, depth + 1, nodes + 1, limits)
  }

  function ValidateItems(items: Items, depth: nat, nodes: nat, limits: Limits): Option<nat> {
    match items
    case NoItems => Some(nodes)
    case Item(head, tail) =>
      var first := Validate(head, depth, nodes, limits);
      if first.None? then None else ValidateItems(tail, depth, first.value, limits)
  }

  function ValidateMembers(members: Members, depth: nat, nodes: nat, limits: Limits): Option<nat> {
    match members
    case NoMembers => Some(nodes)
    case Member(key, value, rest) =>
      if nodes + 1 > limits.nodes || |key| > limits.bytes then None
      else
        var first := Validate(value, depth, nodes + 1, limits);
        if first.None? then None else ValidateMembers(rest, depth, first.value, limits)
  }

  // ---------- No key twice ----------

  predicate NoDuplicates(j: Json) {
    match j
    case String(_) => true
    case Plain => true
    case Array(items) => NoDuplicatesIn(items)
    case Object(members) => NewKeys(members, {})
  }

  predicate NoDuplicatesIn(items: Items) {
    match items
    case NoItems => true
    case Item(head, tail) => NoDuplicates(head) && NoDuplicatesIn(tail)
  }

  /** No key is in `taken` or comes twice, here or further down. */
  predicate NewKeys(members: Members, taken: set<Text>) {
    match members
    case NoMembers => true
    case Member(key, value, rest) =>
      key !in taken && NoDuplicates(value) && NewKeys(rest, taken + {key})
  }

  // ---------- The parser's events and the machine ----------

  datatype Event =
    | ObjectStart | ObjectEnd | ArrayStart | ArrayEnd
    | Key(key: Text)
    | Value(text: Option<Text>)

  function Events(j: Json): seq<Event> {
    match j
    case String(text) => [Value(Some(text))]
    case Plain => [Value(None)]
    case Array(items) => [ArrayStart] + ItemEvents(items) + [ArrayEnd]
    case Object(members) => [ObjectStart] + MemberEvents(members) + [ObjectEnd]
  }

  function ItemEvents(items: Items): seq<Event> {
    match items
    case NoItems => []
    case Item(head, tail) => Events(head) + ItemEvents(tail)
  }

  function MemberEvents(members: Members): seq<Event> {
    match members
    case NoMembers => []
    case Member(key, value, rest) => [Key(key)] + (Events(value) + MemberEvents(rest))
  }

  datatype Failure = DuplicateKey | TooDeep | TooManyNodes | TooLong

  datatype Context = Context(isObject: bool, keys: set<Text>)

  datatype State = State(failure: Option<Failure>, nodes: nat, contexts: seq<Context>)

  const START := State(None, 0, [])

  function Failed(s: State, f: Failure): State {
    s.(failure := Some(f))
  }

  function Counted(s: State): State {
    s.(nodes := s.nodes + 1)
  }

  function Top(s: State): Context
    requires |s.contexts| > 0
  {
    s.contexts[|s.contexts| - 1]
  }

  /** One event; the failing ones leave the counter where it was in this account. */
  function Step(s: State, e: Event, limits: Limits): State {
    if s.failure.Some? then s
    else
      match e
      case ObjectStart => Open(s, true, limits)
      case ArrayStart => Open(s, false, limits)
      case ObjectEnd => Close(s)
      case ArrayEnd => Close(s)
      case Key(key) =>
        if s.nodes + 1 > limits.nodes then Failed(s, TooManyNodes)
        else if |key| > limits.bytes then Failed(s, TooLong)
        else if |s.contexts| == 0 || !Top(s).isObject then Failed(s, TooManyNodes)
        else if key in Top(s).keys then Failed(s, DuplicateKey)
        else
          var top := Top(s).(keys := Top(s).keys + {key});
          Counted(s).(contexts := s.contexts[..|s.contexts| - 1] + [top])
      case Value(text) =>
        if s.nodes + 1 > limits.nodes then Failed(s, TooManyNodes)
        else if text.Some? && |text.value| > limits.bytes then Failed(s, TooLong)
        else Counted(s)
  }

  function Open(s: State, isObject: bool, limits: Limits): State {
    if |s.contexts| >= limits.depth then Failed(s, TooDeep)
    else if s.nodes + 1 > limits.nodes then Failed(s, TooManyNodes)
    else Counted(s).(contexts := s.contexts + [Context(isObject, {})])
  }

  function Close(s: State): State {
    if |s.contexts| > 0 then s.(contexts := s.contexts[..|s.contexts| - 1]) else s
  }

  function Run(s: State, events: seq<Event>, limits: Limits): State
    decreases |events|
  {
    if |events| == 0 then s else Run(Step(s, events[0], limits), events[1..], limits)
  }

  /** The machine as the parser drives it, one call per event. */
  class ParseLimits {
    const limits: Limits
    var failure: Option<Failure>
    var nodes: nat
    var contexts: seq<Context>

    ghost function View(): State
      reads this
    {
      State(failure, nodes, contexts)
    }

    constructor (bounds: Limits)
      ensures limits == bounds && View() == START
    {
      limits, failure, nodes, contexts := bounds, None, 0, [];
    }

    /** `accept`; the counter is not looked at again after a failure. */
    method Accept(e: Event) returns (ok: bool)
      modifies this
      ensures ok == failure.None?
      ensures failure == Step(old(View()), e, limits).failure
      ensures ok ==> View() == Step(old(View()), e, limits)
    {
      if failure.Some? {
        return false;
      }
      match e
      case ObjectStart => ok := Enter(true);
      case ArrayStart => ok := Enter(false);
      case ObjectEnd => ok := Leave();
      case ArrayEnd => ok := Leave();
      case Key(key) => ok := TakeKey(key);
      case Value(text) =>
        nodes := nodes + 1;
        if nodes > limits.nodes {
          failure := Some(TooManyNodes);
        } else if text.Some? && |text.value| > limits.bytes {
          failure := Some(TooLong);
        }
        return failure.None?;
    }

    method Enter(isObject: bool) returns (ok: bool)
      requires failure.None?
      modifies this
      ensures ok == failure.None? && failure == Open(old(View()), isObject, limits).failure
      ensures ok ==> View() == Open(old(View()), isObject, limits)
    {
      if |contexts| >= limits.depth {
        failure := Some(TooDeep);
        return false;
      }
      nodes := nodes + 1;
      if nodes > limits.nodes {
        failure := Some(TooManyNodes);
        return false;
      }
      contexts := contexts + [Context(isObject, {})];
      return true;
    }

    method Leave() returns (ok: bool)
      requires failure.None?
      modifies this`contexts
      ensures ok && View() == Close(old(View()))
    {
      if |contexts| > 0 {
        contexts := contexts[..|contexts| - 1];
      }
      return true;
    }

    method TakeKey(key: Text) returns (ok: bool)
      requires failure.None?
      modifies this
      ensures ok == failure.None? && failure == Step(old(View()), Key(key), limits).failure
      ensures ok ==> View() == Step(old(View()), Key(key), limits)
    {
      nodes := nodes + 1;
      if nodes > limits.nodes {
        failure := Some(TooManyNodes);
        return false;
      }
      if |key| > limits.bytes {
        failure := Some(TooLong);
        return false;
      }
      if |contexts| == 0 || !contexts[|contexts| - 1].isObject {
        failure := Some(TooManyNodes);
        return false;
      }
      var top := contexts[|contexts| - 1];
      if key in top.keys {
        failure := Some(DuplicateKey);
        return false;
      }
      contexts := contexts[..|contexts| - 1] + [top.(keys := top.keys + {key})];
      return true;
    }
  }

  // ---------- The two agree ----------

  lemma {:induction false} RunAppend(s: State, a: seq<Event>, b: seq<Event>, limits: Limits)
    ensures Run(s, a + b, limits) == Run(Run(s, a, limits), b, limits)
    decreases |a|
  {
    if |a| == 0 {
      assert a + b == b;
    } else {
      assert (a + b)[0] == a[0] && (a + b)[1..] == a[1..] + b;
      RunAppend(Step(s, a[0], limits), a[1..], b, limits);
    }
  }

  lemma {:induction false} FailureStays(s: State, events: seq<Event>, limits: Limits)
    requires s.failure.Some?
    ensures Run(s, events, limits) == s
    decreases |events|
  {
    if |events| > 0 {
      FailureStays(s, events[1..], limits);
    }
  }

  lemma OneEvent(s: State, e: Event, limits: Limits)
    ensures Run(s, [e], limits) == Step(s, e, limits)
  {
    assert Run(Step(s, e, limits), [], limits) == Step(s, e, limits);
  }

  /** What the machine should have done with a part of the document. */
  ghost predicate Settled(t: State, count: Option<nat>, unique: bool, after: State) {
    if count.Some? && unique then t == after.(nodes := count.value) else t.failure.Some?
  }

  lemma {:induction false} TreeRuns(j: Json, s: State, limits: Limits)
    requires s.failure.None?
    ensures Settled(Run(s, Events(j), limits), Validate(j, |s.contexts|, s.nodes, limits),
                    NoDuplicates(j), s)
    decreases j, 1
  {
    match j
    case String(text) => OneEvent(s, Value(Some(text)), limits);
    case Plain => OneEvent(s, Value(None), limits);
    case Array(items) => ArrayRuns(items, s, limits);
    case Object(members) => ObjectRuns(members, s, limits);
  }

  lemma {:induction false} ArrayRuns(items: Items, s: State, limits: Limits)
    requires s.failure.None?
    ensures Settled(Run(s, Events(Array(items)), limits),
                    Validate(Array(items), |s.contexts|, s.nodes, limits),
                    NoDuplicates(Array(items)), s)
    decreases items, 1
  {
    RunContainer(s, [ArrayStart], ItemEvents(items), [ArrayEnd], limits);
    OneEvent(s, ArrayStart, limits);
    var inside := Step(s, ArrayStart, limits);
    if inside.failure.None? {
      ItemsRun(items, inside, limits);
      CloseAfter(s, Run(inside, ItemEvents(items), limits), ArrayEnd, limits);
    } else {
      FailureStays(inside, ItemEvents(items) + [ArrayEnd], limits);
    }
  }

  lemma {:induction false} ObjectRuns(members: Members, s: State, limits: Limits)
    requires s.failure.None?
    ensures Settled(Run(s, Events(Object(members)), limits),
                    Validate(Object(members), |s.contexts|, s.nodes, limits),
                    NoDuplicates(Object(members)), s)
    decreases members, 1
  {
    RunContainer(s, [ObjectStart], MemberEvents(members), [ObjectEnd], limits);
    OneEvent(s, ObjectStart, limits);
    var inside := Step(s, ObjectStart, limits);
    if inside.failure.None? {
      MembersRun(members, inside, limits);
      ObjectCloses(members, s, inside, limits);
    } else {
      FailureStays(inside, MemberEvents(members) + [ObjectEnd], limits);
    }
  }

  lemma ObjectCloses(members: Members, s: State, inside: State, limits: Limits)
    requires s.failure.None? && inside == Open(s, true, limits) && inside.failure.None?
    requires Settled(Run(inside, MemberEvents(members), limits),
                     ValidateMembers(members, |inside.contexts|, inside.nodes, limits),
                     NewKeys(members, {}), WithKeys(inside, KeysOf(members)))
    ensures Settled(Run(Run(inside, MemberEvents(members), limits), [ObjectEnd], limits),
                    Validate(Object(members), |s.contexts|, s.nodes, limits),
                    NoDuplicates(Object(members)), s)
  {
    InnerContexts(s, inside, KeysOf(members));
    CloseAfter(s, Run(inside, MemberEvents(members), limits), ObjectEnd, limits);
  }

  lemma RunContainer(s: State, a: seq<Event>, b: seq<Event>, c: seq<Event>, limits: Limits)
    ensures Run(s, a + b + c, limits) == Run(Run(s, a, limits), b + c, limits)
    ensures Run(s, a + b + c, limits) == Run(Run(Run(s, a, limits), b, limits), c, limits)
  {
    assert a + b + c == a + (b + c);
    RunAppend(s, a, b + c, limits);
    RunAppend(Run(s, a, limits), b, c, limits);
  }

  /** The context opened for a container, possibly with keys in it by now, is dropped again. */
  lemma CloseAfter(s: State, inner: State, end: Event, limits: Limits)
    requires s.failure.None? && (end.ArrayEnd? || end.ObjectEnd?)
    requires inner.failure.None? ==>
               |inner.contexts| == |s.contexts| + 1 && inner.contexts[..|s.contexts|] == s.contexts
    ensures inner.failure.None? ==> Run(inner, [end], limits) == s.(nodes := inner.nodes)
    ensures inner.failure.Some? ==> Run(inner, [end], limits) == inner
  {
    OneEvent(inner, end, limits);
  }

  lemma {:induction false} ItemsRun(items: Items, s: State, limits: Limits)
    requires s.failure.None?
    ensures Settled(Run(s, ItemEvents(items), limits),
                    ValidateItems(items, |s.contexts|, s.nodes, limits), NoDuplicatesIn(items), s)
    decreases items, 0
  {
    match items
    case NoItems =>
    case Item(head, tail) =>
      TreeRuns(head, s, limits);
      RunAppend(s, Events(head), ItemEvents(tail), limits);
      var t := Run(s, Events(head), limits);
      if t.failure.None? {
        ItemsRun(tail, t, limits);
      } else {
        FailureStays(t, ItemEvents(tail), limits);
      }
  }

  /** The state with more keys in its innermost object. */
  ghost function WithKeys(s: State, keys: set<Text>): State
    requires |s.contexts| > 0
  {
    s.(contexts := s.contexts[..|s.contexts| - 1] + [Top(s).(keys := Top(s).keys + keys)])
  }

  ghost function KeysOf(members: Members): set<Text> {
    match members
    case NoMembers => {}
    case Member(key, value, rest) => {key} + KeysOf(rest)
  }

  lemma NoNewKeys(s: State)
    requires |s.contexts| > 0
    ensures WithKeys(s, {}) == s
  {
    assert Top(s).keys + {} == Top(s).keys;
    assert s.contexts == s.contexts[..|s.contexts| - 1] + [Top(s)];
  }

  lemma NamedIs(s: State, key: Text, limits: Limits)
    requires s.failure.None? && Step(s, Key(key), limits).failure.None?
    ensures |s.contexts| > 0
    ensures var named := Step(s, Key(key), limits);
            && named == Counted(WithKeys(s, {key})) && |named.contexts| == |s.contexts|
            && Top(named).isObject && Top(named).keys == Top(s).keys + {key}
  {
  }

  lemma InnerContexts(s: State, inside: State, keys: set<Text>)
    requires |inside.contexts| == |s.contexts| + 1 && inside.contexts[..|s.contexts|] == s.contexts
    ensures var inner := WithKeys(inside, keys);
            |inner.contexts| == |s.contexts| + 1 && inner.contexts[..|s.contexts|] == s.contexts
  {
  }

  lemma {:induction false} MembersRun(members: Members, s: State, limits: Limits)
    requires s.failure.None? && |s.contexts| > 0 && Top(s).isObject
    ensures Settled(Run(s, MemberEvents(members), limits),
                    ValidateMembers(members, |s.contexts|, s.nodes, limits),
                    NewKeys(members, Top(s).keys), WithKeys(s, KeysOf(members)))
    decreases members, 0
  {
    match members
    case NoMembers => NoNewKeys(s);
    case Member(key, value, rest) =>
      var named := Step(s, Key(key), limits);
      var later := Events(value) + MemberEvents(rest);
      RunAppend(s, [Key(key)], later, limits);
      OneEvent(s, Key(key), limits);
      if named.failure.Some? {
        FailureStays(named, later, limits);
      } else {
        NamedIs(s, key, limits);
        ValueRuns(members, named, limits);
        KeysAddUp(s, key, KeysOf(rest));
      }
  }

  /** The value behind a key, and the members after it. */
  lemma {:induction false} ValueRuns(members: Members, named: State, limits: Limits)
    requires members.Member? && named.failure.None? && |named.contexts| > 0 && Top(named).isObject
    ensures var first := Validate(members.value, |named.contexts|, named.nodes, limits);
            Settled(Run(named, Events(members.value) + MemberEvents(members.rest), limits),
                    if first.None? then None
                    else ValidateMembers(members.rest, |named.contexts|, first.value, limits),
                    NoDuplicates(members.value) && NewKeys(members.rest, Top(named).keys),
                    WithKeys(named, KeysOf(members.rest)))
    decreases members, -1
  {
    var value, rest := members.value, members.rest;
    TreeRuns(value, named, limits);
    RunAppend(named, Events(value), MemberEvents(rest), limits);
    var t := Run(named, Events(value), limits);
    if t.failure.None? {
      MembersRun(rest, t, limits);
    } else {
      FailureStays(t, MemberEvents(rest), limits);
    }
  }

  lemma KeysAddUp(s: State, key: Text, keys: set<Text>)
    requires |s.contexts| > 0
    ensures WithKeys(Counted(WithKeys(s, {key})), keys).contexts == WithKeys(s, {key} + keys).contexts
  {
    var named := Counted(WithKeys(s, {key}));
    assert named.contexts[..|s.contexts| - 1] == s.contexts[..|s.contexts| - 1];
    assert Top(named).keys + keys == Top(s).keys + ({key} + keys);
  }

  // ---------- The order of members does not matter ----------

  function Count(members: Members): nat {
    match members
    case NoMembers => 0
    case Member(key, value, rest) => 1 + Count(rest)
  }

  function KeyAt(members: Members, i: nat): Text
    requires i < Count(members)
  {
    if i == 0 then members.key else KeyAt(members.rest, i - 1)
  }

  function ValueAt(members: Members, i: nat): Json
    requires i < Count(members)
  {
    if i == 0 then members.value else ValueAt(members.rest, i - 1)
  }

  function Without(members: Members, i: nat): Members
    requires i < Count(members)
  {
    if i == 0 then members.rest
    else Member(members.key, members.value, Without(members.rest, i - 1))
  }

  /** The same tree, with the members of its objects in any order. */
  ghost predicate Rearranged(j: Json, k: Json)
    decreases j
  {
    match j
    case String(_) => k == j
    case Plain => k == j
    case Array(items) => k.Array? && RearrangedItems(items, k.items)
    case Object(members) => k.Object? && RearrangedMembers(members, k.members)
  }

  ghost predicate RearrangedItems(a: Items, b: Items)
    decreases a
  {
    match a
    case NoItems => b.NoItems?
    case Item(head, tail) => b.Item? && Rearranged(head, b.head) && RearrangedItems(tail, b.tail)
  }

  ghost predicate RearrangedMembers(a: Members, b: Members)
    decreases a
  {
    match a
    case NoMembers => b.NoMembers?
    case Member(key, value, rest) =>
      exists i: nat ::
        && i < Count(b) && KeyAt(b, i) == key && Rearranged(value, ValueAt(b, i))
        && RearrangedMembers(rest, Without(b, i))
  }

  /** Nodes of a document; a key counts as one. */
  function Size(j: Json): nat {
    match j
    case String(_) => 1
    case Plain => 1
    case Array(items) => 1 + SizeOfItems(items)
    case Object(members) => 1 + SizeOfMembers(members)
  }

  function SizeOfItems(items: Items): nat {
    match items
    case NoItems => 0
    case Item(head, tail) => Size(head) + SizeOfItems(tail)
  }

  function SizeOfMembers(members: Members): nat {
    match members
    case NoMembers => 0
    case Member(key, value, rest) => 1 + Size(value) + SizeOfMembers(rest)
  }

  /** No text is too long and nothing is nested too deep. */
  predicate Fits(j: Json, depth: nat, limits: Limits) {
    match j
    case String(text) => |text| <= limits.bytes
    case Plain => true
    case Array(items) => depth < limits.depth && ItemsFit(items, depth + 1, limits)
    case Object(members) => depth < limits.depth && MembersFit(members, depth + 1, limits)
  }

  predicate ItemsFit(items: Items, depth: nat, limits: Limits) {
    match items
    case NoItems => true
    case Item(head, tail) => Fits(head, depth, limits) && ItemsFit(tail, depth, limits)
  }

  predicate MembersFit(members: Members, depth: nat, limits: Limits) {
    match members
    case NoMembers => true
    case Member(key, value, rest) =>
      |key| <= limits.bytes && Fits(value, depth, limits) && MembersFit(rest, depth, limits)
  }

  function Counting(fits: bool, total: nat, limits: Limits): Option<nat> {
    if fits && total <= limits.nodes then Some(total) else None
  }

  /** What the recursion computes, without an order. */
  lemma {:induction false} ValidateCounts(j: Json, depth: nat, nodes: nat, limits: Limits)
    requires nodes <= limits.nodes
    ensures Validate(j, depth, nodes, limits)
         == Counting(Fits(j, depth, limits), nodes + Size(j), limits)
    decreases j
  {
    match j
    case String(_) =>
    case Plain =>
    case Array(items) =>
      if depth < limits.depth && nodes + 1 <= limits.nodes {
        ItemsCount(items, depth + 1, nodes + 1, limits);
      }
    case Object(members) =>
      if depth < limits.depth && nodes + 1 <= limits.nodes {
        MembersCount(members, depth + 1, nodes + 1, limits);
      }
  }

  lemma {:induction false} ItemsCount(items: Items, depth: nat, nodes: nat, limits: Limits)
    requires nodes <= limits.nodes
    ensures ValidateItems(items, depth, nodes, limits)
         == Counting(ItemsFit(items, depth, limits), nodes + SizeOfItems(items), limits)
    decreases items
  {
    match items
    case NoItems =>
    case Item(head, tail) =>
      ValidateCounts(head, depth, nodes, limits);
      if nodes + Size(head) <= limits.nodes {
        ItemsCount(tail, depth, nodes + Size(head), limits);
      }
  }

  lemma {:induction false} MembersCount(members: Members, depth: nat, nodes: nat, limits: Limits)
    requires nodes <= limits.nodes
    ensures ValidateMembers(members, depth, nodes, limits)
         == Counting(MembersFit(members, depth, limits), nodes + SizeOfMembers(members), limits)
    decreases members
  {
    match members
    case NoMembers =>
    case Member(key, value, rest) =>
      if nodes + 1 <= limits.nodes {
        ValidateCounts(value, depth, nodes + 1, limits);
        if nodes + 1 + Size(value) <= limits.nodes {
          MembersCount(rest, depth, nodes + 1 + Size(value), limits);
        }
      }
  }

  /** A member counts the same wherever it stands. */
  lemma {:induction false} TakenOut(members: Members, i: nat, depth: nat, limits: Limits)
    requires i < Count(members)
    ensures SizeOfMembers(members) == 1 + Size(ValueAt(members, i)) + SizeOfMembers(Without(members, i))
    ensures MembersFit(members, depth, limits) <==>
            && |KeyAt(members, i)| <= limits.bytes && Fits(ValueAt(members, i), depth, limits)
            && MembersFit(Without(members, i), depth, limits)
    decreases i
  {
    if i > 0 {
      TakenOut(members.rest, i - 1, depth, limits);
    }
  }

  lemma {:induction false} RearrangedCounts(j: Json, k: Json, depth: nat, limits: Limits)
    requires Rearranged(j, k)
    ensures Size(k) == Size(j) && Fits(k, depth, limits) == Fits(j, depth, limits)
    decreases j
  {
    match j
    case String(_) =>
    case Plain =>
    case Array(items) => RearrangedItemsCount(items, k.items, depth + 1, limits);
    case Object(members) => RearrangedMembersCount(members, k.members, depth + 1, limits);
  }

  lemma {:induction false} RearrangedItemsCount(a: Items, b: Items, depth: nat, limits: Limits)
    requires RearrangedItems(a, b)
    ensures SizeOfItems(b) == SizeOfItems(a) && ItemsFit(b, depth, limits) == ItemsFit(a, depth, limits)
    decreases a
  {
    match a
    case NoItems =>
    case Item(head, tail) =>
      RearrangedCounts(head, b.head, depth, limits);
      RearrangedItemsCount(tail, b.tail, depth, limits);
  }

  lemma {:induction false} RearrangedMembersCount(a: Members, b: Members, depth: nat, limits: Limits)
    requires RearrangedMembers(a, b)
    ensures SizeOfMembers(b) == SizeOfMembers(a)
    ensures MembersFit(b, depth, limits) == MembersFit(a, depth, limits)
    decreases a
  {
    match a
    case NoMembers =>
    case Member(key, value, rest) =>
      var i: nat :| i < Count(b) && KeyAt(b, i) == key && Rearranged(value, ValueAt(b, i))
                    && RearrangedMembers(rest, Without(b, i));
      TakenOut(b, i, depth, limits);
      RearrangedCounts(value, ValueAt(b, i), depth, limits);
      RearrangedMembersCount(rest, Without(b, i), depth, limits);
  }

  /** The recursion gives the same answer for every order of members. */
  lemma OrderIsIrrelevant(j: Json, k: Json, depth: nat, nodes: nat, limits: Limits)
    requires Rearranged(j, k) && nodes <= limits.nodes
    ensures Validate(k, depth, nodes, limits) == Validate(j, depth, nodes, limits)
  {
    RearrangedCounts(j, k, depth, limits);
    ValidateCounts(j, depth, nodes, limits);
    ValidateCounts(k, depth, nodes, limits);
  }

  /**
    The machine accepts a document exactly when no key repeats and the recursion accepts the tree
    `parsed`, whose objects list their members in an order of their own.
  */
  lemma StreamingAgrees(j: Json, parsed: Json, limits: Limits)
    requires NoDuplicates(j) ==> Rearranged(j, parsed)
    ensures var end := Run(START, Events(j), limits);
            && (end.failure.None? <==> NoDuplicates(j) && Validate(parsed, 0, 0, limits).Some?)
            && (end.failure.None? ==>
                  Some(end.nodes) == Validate(parsed, 0, 0, limits) && end.contexts == [])
  {
    TreeRuns(j, START, limits);
    if NoDuplicates(j) {
      OrderIsIrrelevant(j, parsed, 0, 0, limits);
    }
  }
}
