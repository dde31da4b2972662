/** The explicit-stack walks that pull reply text out of a parsed JSON message.

The tests on keys and texts (delta-like, part-like, status label) are parameters. */
module DeltaWalks {

  /** A parsed message. Each container carries its object identity. */
  datatype Json =
    | Text(s: string)
    | Scalar
    | Object(id: nat, fields: seq<Field>)
    | List(id: nat, items: seq<Json>)

  datatype Field = Field(key: string, value: Json)

  predicate Container(j: Json) {
    j.Object? || j.List?
  }

  /** What a walk takes from one entry of an object, and whether it goes inside. */
  datatype Policy<T> = Policy(own: (string, Json) -> seq<T>, descend: (string, Json) -> bool)

  // -- What is visited, recursively ------------------------------------------------------------

  function Own<T>(p: Policy<T>, fields: seq<Field>): seq<T> {
    if fields == [] then []
    else Own(p, fields[..|fields| - 1]) + p.own(fields[|fields| - 1].key, fields[|fields| - 1].value)
  }

  /** The walk of one value: what its own entries give, then its children from the last
  to the first. */
  function Walk<T>(p: Policy<T>, j: Json): seq<T>
    decreases j, 1
  {
    match j
    case Object(_, fields) => Own(p, fields) + WalkFields(p, fields)
    case List(_, items) => WalkItems(p, items)
    case _ => []
  }

  function WalkFields<T>(p: Policy<T>, fields: seq<Field>): seq<T>
    decreases fields, 0
  {
    if fields == [] then []
    else WalkField(p, fields[|fields| - 1]) + WalkFields(p, fields[..|fields| - 1])
  }

  function WalkField<T>(p: Policy<T>, f: Field): seq<T>
    decreases f, 0
  {
    if p.descend(f.key, f.value) then Walk(p, f.value) else []
  }

  function WalkItems<T>(p: Policy<T>, items: seq<Json>): seq<T>
    decreases items, 0
  {
    if items == [] then []
    else
      var last := items[|items| - 1];
      (if Container(last) then Walk(p, last) else []) + WalkItems(p, items[..|items| - 1])
  }

  /** The same contributions read from top to bottom. */
  function InOrder<T>(p: Policy<T>, j: Json): seq<T>
    decreases j, 1
  {
    match j
    case Object(_, fields) => InOrderFields(p, fields)
    case List(_, items) => InOrderItems(p, items)
    case _ => []
  }

  function InOrderFields<T>(p: Policy<T>, fields: seq<Field>): seq<T>
    decreases fields, 0
  {
    if fields == [] then []
    else InOrderFields(p, fields[..|fields| - 1]) + InOrderField(p, fields[|fields| - 1])
  }

  function InOrderField<T>(p: Policy<T>, f: Field): seq<T>
    decreases f, 0
  {
    p.own(f.key, f.value) + if p.descend(f.key, f.value) then InOrder(p, f.value) else []
  }

  function InOrderItems<T>(p: Policy<T>, items: seq<Json>): seq<T>
    decreases items, 0
  {
    if items == [] then []
    else
      var last := items[|items| - 1];
      InOrderItems(p, items[..|items| - 1]) + if Container(last) then InOrder(p, last) else []
  }

  /** The walk reads everything that reading from top to bottom would, as often: only
  the order differs. */
  lemma {:induction false} WalkLosesNothing<T>(p: Policy<T>, j: Json)
    ensures multiset(Walk(p, j)) == multiset(InOrder(p, j))
    decreases j, 1
  {
    match j
    case Object(_, fields) => WalkKeepsFields(p, fields);
    case List(_, items) => WalkKeepsItems(p, items);
    case _ =>
  }

  lemma {:induction false} WalkKeepsFields<T>(p: Policy<T>, fields: seq<Field>)
    ensures multiset(Own(p, fields) + WalkFields(p, fields)) == multiset(InOrderFields(p, fields))
    decreases fields, 0
  {
    if fields != [] {
      var before, last := fields[..|fields| - 1], fields[|fields| - 1];
      WalkKeepsFields(p, before);
      WalkKeepsField(p, last);
    }
  }

  lemma {:induction false} WalkKeepsField<T>(p: Policy<T>, f: Field)
    ensures multiset(p.own(f.key, f.value) + WalkField(p, f)) == multiset(InOrderField(p, f))
    decreases f, 0
  {
    WalkLosesNothing(p, f.value);
  }

  lemma {:induction false} WalkKeepsItems<T>(p: Policy<T>, items: seq<Json>)
    ensures multiset(WalkItems(p, items)) == multiset(InOrderItems(p, items))
    decreases items, 0
  {
    if items != [] {
      WalkKeepsItems(p, items[..|items| - 1]);
      WalkLosesNothing(p, items[|items| - 1]);
    }
  }

  // -- The stack ---------------------------------------------------------------------------------

  function WalkStack<T>(p: Policy<T>, stack: seq<Json>): seq<T> {
    if stack == [] then [] else Walk(p, stack[|stack| - 1]) + WalkStack(p, stack[..|stack| - 1])
  }

  /** What is pushed for an object, in order. */
  function Pushed<T>(p: Policy<T>, fields: seq<Field>): seq<Json> {
    if fields == [] then []
    else Pushed(p, fields[..|fields| - 1]) + PushedField(p, fields[|fields| - 1])
  }

  function PushedField<T>(p: Policy<T>, f: Field): seq<Json> {
    if p.descend(f.key, f.value) then [f.value] else []
  }

  function PushedItems(items: seq<Json>): seq<Json> {
    if items == [] then []
    else PushedItems(items[..|items| - 1]) + if Container(items[|items| - 1]) then [items[|items| - 1]] else []
  }

  lemma {:induction false} StackConcat<T>(p: Policy<T>, a: seq<Json>, b: seq<Json>)
    ensures WalkStack(p, a + b) == WalkStack(p, b) + WalkStack(p, a)
    ensures StackSize(a + b) == StackSize(a) + StackSize(b)
    ensures StackIds(a + b) == StackIds(a) + StackIds(b)
  {
    if b == [] {
      assert a + b == a;
    } else {
      assert (a + b)[..|a + b| - 1] == a + b[..|b| - 1];
      StackConcat(p, a, b[..|b| - 1]);
    }
  }

  /** How many values a message holds. */
  function Size(j: Json): nat
    decreases j, 1
  {
    match j
    case Object(_, fields) => 1 + SizeFields(fields)
    case List(_, items) => 1 + StackSize(items)
    case _ => 1
  }

  function SizeFields(fields: seq<Field>): nat
    decreases fields, 0
  {
    if fields == [] then 0 else SizeFields(fields[..|fields| - 1]) + SizeField(fields[|fields| - 1])
  }

  function SizeField(f: Field): nat
    decreases f, 0
  {
    Size(f.value)
  }

  function StackSize(stack: seq<Json>): nat
    decreases stack, 0
  {
    if stack == [] then 0 else StackSize(stack[..|stack| - 1]) + Size(stack[|stack| - 1])
  }

  /** The identities of the containers of a message. */
  function Ids(j: Json): multiset<nat>
    decreases j, 1
  {
    match j
    case Object(id, fields) => multiset{id} + IdsFields(fields)
    case List(id, items) => multiset{id} + StackIds(items)
    case _ => multiset{}
  }

  function IdsFields(fields: seq<Field>): multiset<nat>
    decreases fields, 0
  {
    if fields == [] then multiset{} else IdsFields(fields[..|fields| - 1]) + IdsField(fields[|fields| - 1])
  }

  function IdsField(f: Field): multiset<nat>
    decreases f, 0
  {
    Ids(f.value)
  }

  function StackIds(stack: seq<Json>): multiset<nat>
    decreases stack, 0
  {
    if stack == [] then multiset{} else StackIds(stack[..|stack| - 1]) + Ids(stack[|stack| - 1])
  }

  /** What the parser of JSON text yields: a tree, in which no container occurs twice. */
  ghost predicate Tree(j: Json) {
    forall id :: Ids(j)[id] <= 1
  }

  lemma OneOnStack<T>(p: Policy<T>, j: Json)
    ensures WalkStack(p, [j]) == Walk(p, j) && StackSize([j]) == Size(j) && StackIds([j]) == Ids(j)
    ensures WalkStack(p, []) == [] && StackSize([]) == 0 && StackIds([]) == multiset{}
  {
    assert [j][..0] == [];
  }

  lemma {:induction false} PushedStack<T>(p: Policy<T>, fields: seq<Field>)
    ensures WalkStack(p, Pushed(p, fields)) == WalkFields(p, fields)
    ensures StackSize(Pushed(p, fields)) <= SizeFields(fields)
    ensures StackIds(Pushed(p, fields)) <= IdsFields(fields)
  {
    if fields != [] {
      var before, last := fields[..|fields| - 1], fields[|fields| - 1];
      PushedStack(p, before);
      OneOnStack(p, last.value);
      StackConcat(p, Pushed(p, before), PushedField(p, last));
    }
  }

  lemma {:induction false} PushedItemsStack<T>(p: Policy<T>, items: seq<Json>)
    ensures WalkStack(p, PushedItems(items)) == WalkItems(p, items)
    ensures StackSize(PushedItems(items)) <= StackSize(items)
    ensures StackIds(PushedItems(items)) <= StackIds(items)
  {
    if items != [] {
      var before, last := items[..|items| - 1], items[|items| - 1];
      PushedItemsStack(p, before);
      OneOnStack(p, last);
      StackConcat(p, PushedItems(before), if Container(last) then [last] else []);
    }
  }

  // -- The loop ------------------------------------------------------------------------------------

  /** The identities on the stack are new, and all different. */
  ghost predicate Unseen(stack: seq<Json>, seen: set<nat>) {
    forall id :: StackIds(stack)[id] + (if id in seen then 1 else 0) <= 1
  }

  /** One pass of an inner loop over the entries of an object. */
  method ScanFields<T>(p: Policy<T>, fields: seq<Field>, out0: seq<T>, stack0: seq<Json>)
    returns (out: seq<T>, stack: seq<Json>)
    ensures out == out0 + Own(p, fields) && stack == stack0 + Pushed(p, fields)
  {
    out, stack := out0, stack0;
    for i := 0 to |fields|
      invariant out == out0 + Own(p, fields[..i]) && stack == stack0 + Pushed(p, fields[..i])
    {
      assert fields[..i + 1][..i] == fields[..i];
      var k, v := fields[i].key, fields[i].value;
      out := out + p.own(k, v);
      if p.descend(k, v) {
        stack := stack + [v];
      }
    }
    assert fields[..|fields|] == fields;
  }

  method ScanItems(items: seq<Json>, stack0: seq<Json>) returns (stack: seq<Json>)
    ensures stack == stack0 + PushedItems(items)
  {
    stack := stack0;
    for i := 0 to |items|
      invariant stack == stack0 + PushedItems(items[..i])
    {
      assert items[..i + 1][..i] == items[..i];
      if Container(items[i]) {
        stack := stack + [items[i]];
      }
    }
    assert items[..|items|] == items;
  }

  /** The walk with a stack and a set of visited identities is the recursive walk: it
  ends, and the set never makes it skip anything. */
  method WalkLoop<T>(p: Policy<T>, root: Json) returns (out: seq<T>)
    requires Tree(root)
    ensures out == Walk(p, root)
  {
    hide Unseen, StackSize, StackIds, WalkStack, Walk, Own, Pushed, PushedItems, Tree, Size, Ids;
    out := [];
    var stack := [root];
    var seen: set<nat> := {};
    OneOnStack(p, root);
    StartsUnseen(root);
    while stack != []
      invariant out + WalkStack(p, stack) == Walk(p, root)
      invariant Unseen(stack, seen)
      decreases StackSize(stack)
    {
      var current := stack[|stack| - 1];
      var rest := stack[..|stack| - 1];
      assert rest + [current] == stack;
      PoppedIsUnseen(rest, current, seen);
      stack := rest;
      if current.Object? {
        if current.id in seen {
          assert false;
        }
        VisitObject(p, rest, current, seen);
        seen := seen + {current.id};
        out, stack := ScanFields(p, current.fields, out, stack);
      } else if current.List? {
        if current.id in seen {
          assert false;
        }
        VisitList(p, rest, current, seen);
        seen := seen + {current.id};
        stack := ScanItems(current.items, stack);
      } else {
        VisitLeaf(p, rest, current);
      }
    }
    OneOnStack(p, root);
  }

  lemma StartsUnseen(root: Json)
    requires Tree(root)
    ensures Unseen([root], {})
  {
    assert [root][..0] == [];
    assert StackIds([root]) == Ids(root);
  }

  lemma PoppedIsUnseen(rest: seq<Json>, current: Json, seen: set<nat>)
    requires Unseen(rest + [current], seen)
    ensures Container(current) ==> current.id !in seen
    ensures Unseen(rest, seen) && (rest + [current])[..|rest|] == rest
    ensures Size(current) > 0 && StackSize(rest) < StackSize(rest + [current])
  {
    assert (rest + [current])[..|rest|] == rest;
    forall id
      ensures StackIds(rest)[id] + Ids(current)[id] + (if id in seen then 1 else 0) <= 1
    {
      assert StackIds(rest + [current])[id] + (if id in seen then 1 else 0) <= 1;
    }
    if Container(current) {
      assert Ids(current)[current.id] >= 1;
    }
  }

  /** An object, replaced by what it pushes. */
  lemma VisitObject<T>(p: Policy<T>, rest: seq<Json>, current: Json, seen: set<nat>)
    requires current.Object? && Unseen(rest + [current], seen)
    ensures var pushed := Pushed(p, current.fields);
      && WalkStack(p, rest + [current]) == Own(p, current.fields) + WalkStack(p, rest + pushed)
      && StackSize(rest + pushed) < StackSize(rest + [current])
      && Unseen(rest + pushed, seen + {current.id})
  {
    hide Unseen, WalkStack, StackSize, StackIds, Pushed, Own, WalkFields, SizeFields, IdsFields;
    var pushed := Pushed(p, current.fields);
    PushedStack(p, current.fields);
    StackConcat(p, rest, pushed);
    StackConcat(p, rest, [current]);
    OneOnStack(p, current);
    StaysUnseen(rest, current, IdsFields(current.fields), pushed, seen);
  }

  lemma VisitLeaf<T>(p: Policy<T>, rest: seq<Json>, current: Json)
    requires !Container(current)
    ensures WalkStack(p, rest + [current]) == WalkStack(p, rest)
  {
    assert (rest + [current])[..|rest|] == rest;
  }

  /** A list, replaced by what it pushes. */
  lemma VisitList<T>(p: Policy<T>, rest: seq<Json>, current: Json, seen: set<nat>)
    requires current.List? && Unseen(rest + [current], seen)
    ensures var pushed := PushedItems(current.items);
      && WalkStack(p, rest + [current]) == WalkStack(p, rest + pushed)
      && StackSize(rest + pushed) < StackSize(rest + [current])
      && Unseen(rest + pushed, seen + {current.id})
  {
    hide Unseen, WalkStack, StackSize, StackIds, PushedItems, WalkItems;
    var pushed := PushedItems(current.items);
    PushedItemsStack(p, current.items);
    StackConcat(p, rest, pushed);
    StackConcat(p, rest, [current]);
    OneOnStack(p, current);
    StaysUnseen(rest, current, StackIds(current.items), pushed, seen);
  }

  lemma StaysUnseen(rest: seq<Json>, current: Json, inner: multiset<nat>, pushed: seq<Json>, seen: set<nat>)
    requires Container(current) && Unseen(rest + [current], seen)
    requires StackIds(rest + [current]) == StackIds(rest) + (multiset{current.id} + inner)
    requires StackIds(rest + pushed) == StackIds(rest) + StackIds(pushed) && StackIds(pushed) <= inner
    ensures Unseen(rest + pushed, seen + {current.id})
  {
    forall id
      ensures StackIds(rest + pushed)[id] + (if id in seen + {current.id} then 1 else 0) <= 1
    {
      assert StackIds(rest + [current])[id] + (if id in seen then 1 else 0) <= 1;
      assert StackIds(pushed)[id] <= inner[id];
    }
  }

  // -- The two walks ---------------------------------------------------------------------------------

  /** The engine takes the texts that `keep` accepts, with their key, and goes into every
  container. */
  function EnginePolicy(keep: (string, string) -> bool): Policy<(string, string)> {
    Policy((k: string, j: Json) => if j.Text? && j.s != [] && keep(k, j.s) then [(k, j.s)] else [],
           (k: string, j: Json) => Container(j))
  }

  method WalkDeltaStrings(root: Json, keep: (string, string) -> bool) returns (out: seq<(string, string)>)
    requires Tree(root)
    ensures out == Walk(EnginePolicy(keep), root)
  {
    out := WalkLoop(EnginePolicy(keep), root);
  }

  /** The texts of a list that `usable` accepts. */
  function UsableItems(items: seq<Json>, usable: string -> bool): seq<string> {
    if items == [] then []
    else
      var last := items[|items| - 1];
      UsableItems(items[..|items| - 1], usable) + if last.Text? && usable(last.s) then [last.s] else []
  }

  /** The adapter takes the usable texts under delta-like keys, and those directly in a
  list under a delta-like or part-like key; it goes into all other containers. */
  function AdapterPolicy(delta: string -> bool, part: string -> bool, usable: string -> bool): Policy<string> {
    Policy(
      (k: string, j: Json) =>
        if j.Text? && delta(k) then (if usable(j.s) then [j.s] else [])
        else if j.List? && (delta(k) || part(k)) then UsableItems(j.items, usable)
        else [],
      (k: string, j: Json) => Container(j) && !(j.List? && (delta(k) || part(k))))
  }

  /** What the adapter's documentation promises: the same texts, but from everywhere. */
  function FullPolicy(delta: string -> bool, part: string -> bool, usable: string -> bool): Policy<string> {
    Policy(AdapterPolicy(delta, part, usable).own, (k: string, j: Json) => Container(j))
  }

  /** The texts that lie in containers inside a list under a delta-like or part-like
  key. */
  function Hidden(delta: string -> bool, part: string -> bool, usable: string -> bool, j: Json): seq<string>
    decreases j, 1
  {
    match j
    case Object(_, fields) => HiddenFields(delta, part, usable, fields)
    case List(_, items) => HiddenItems(delta, part, usable, items)
    case _ => []
  }

  function HiddenFields(
    delta: string -> bool, part: string -> bool, usable: string -> bool, fields: seq<Field>
  ): seq<string>
    decreases fields, 0
  {
    if fields == [] then []
    else
      HiddenFields(delta, part, usable, fields[..|fields| - 1])
      + HiddenField(delta, part, usable, fields[|fields| - 1])
  }

  function HiddenField(delta: string -> bool, part: string -> bool, usable: string -> bool, f: Field): seq<string>
    decreases f, 0
  {
    if f.value.List? && (delta(f.key) || part(f.key)) then InOrder(FullPolicy(delta, part, usable), f.value)
    else Hidden(delta, part, usable, f.value)
  }

  function HiddenItems(
    delta: string -> bool, part: string -> bool, usable: string -> bool, items: seq<Json>
  ): seq<string>
    decreases items, 0
  {
    if items == [] then []
    else
      HiddenItems(delta, part, usable, items[..|items| - 1]) + Hidden(delta, part, usable, items[|items| - 1])
  }

  lemma {:induction false} AdapterSkips(delta: string -> bool, part: string -> bool, usable: string -> bool, j: Json)
    ensures multiset(InOrder(FullPolicy(delta, part, usable), j)) ==
      multiset(InOrder(AdapterPolicy(delta, part, usable), j)) + multiset(Hidden(delta, part, usable, j))
    decreases j, 1
  {
    match j
    case Object(_, fields) => AdapterSkipsInFields(delta, part, usable, fields);
    case List(_, items) => AdapterSkipsInItems(delta, part, usable, items);
    case _ =>
  }

  lemma {:induction false} AdapterSkipsInFields(
    delta: string -> bool, part: string -> bool, usable: string -> bool, fields: seq<Field>
  )
    ensures multiset(InOrderFields(FullPolicy(delta, part, usable), fields)) ==
      multiset(InOrderFields(AdapterPolicy(delta, part, usable), fields))
      + multiset(HiddenFields(delta, part, usable, fields))
    decreases fields, 0
  {
    if fields != [] {
      AdapterSkipsInFields(delta, part, usable, fields[..|fields| - 1]);
      AdapterSkipsInField(delta, part, usable, fields[|fields| - 1]);
    }
  }

  lemma {:induction false} AdapterSkipsInField(
    delta: string -> bool, part: string -> bool, usable: string -> bool, f: Field
  )
    ensures multiset(InOrderField(FullPolicy(delta, part, usable), f)) ==
      multiset(InOrderField(AdapterPolicy(delta, part, usable), f)) + multiset(HiddenField(delta, part, usable, f))
    decreases f, 0
  {
    AdapterSkips(delta, part, usable, f.value);
  }

  lemma {:induction false} AdapterSkipsInItems(
    delta: string -> bool, part: string -> bool, usable: string -> bool, items: seq<Json>
  )
    ensures multiset(InOrderItems(FullPolicy(delta, part, usable), items)) ==
      multiset(InOrderItems(AdapterPolicy(delta, part, usable), items))
      + multiset(HiddenItems(delta, part, usable, items))
    decreases items, 0
  {
    if items != [] {
      AdapterSkipsInItems(delta, part, usable, items[..|items| - 1]);
      AdapterSkips(delta, part, usable, items[|items| - 1]);
    }
  }

  /** The entry is nothing the adapter takes a text from: no usable text under a delta-like
  key, and no usable text directly in a list under a delta-like or part-like key. */
  predicate TextFree(delta: string -> bool, part: string -> bool, usable: string -> bool, f: Field) {
    && !(f.value.Text? && delta(f.key) && usable(f.value.s))
    && (f.value.List? && (delta(f.key) || part(f.key)) ==>
          forall i :: 0 <= i < |f.value.items| ==> !(f.value.items[i].Text? && usable(f.value.items[i].s)))
  }

  /** No entry anywhere inside is one to take a text from. */
  predicate Bare(delta: string -> bool, part: string -> bool, usable: string -> bool, j: Json)
    decreases j, 1
  {
    match j
    case Object(_, fields) => forall i :: 0 <= i < |fields| ==> BareField(delta, part, usable, fields[i])
    case List(_, items) => forall i :: 0 <= i < |items| ==> Bare(delta, part, usable, items[i])
    case _ => true
  }

  predicate BareField(delta: string -> bool, part: string -> bool, usable: string -> bool, f: Field)
    decreases f, 0
  {
    TextFree(delta, part, usable, f) && Bare(delta, part, usable, f.value)
  }

  /** Every list under a delta-like or part-like key is bare inside. */
  predicate Exposed(delta: string -> bool, part: string -> bool, usable: string -> bool, j: Json)
    decreases j, 1
  {
    match j
    case Object(_, fields) => forall i :: 0 <= i < |fields| ==> ExposedField(delta, part, usable, fields[i])
    case List(_, items) => forall i :: 0 <= i < |items| ==> Exposed(delta, part, usable, items[i])
    case _ => true
  }

  predicate ExposedField(delta: string -> bool, part: string -> bool, usable: string -> bool, f: Field)
    decreases f, 0
  {
    if f.value.List? && (delta(f.key) || part(f.key)) then Bare(delta, part, usable, f.value)
    else Exposed(delta, part, usable, f.value)
  }

  lemma {:induction false} NoUsableItems(items: seq<Json>, usable: string -> bool)
    ensures UsableItems(items, usable) == [] <==>
      forall i :: 0 <= i < |items| ==> !(items[i].Text? && usable(items[i].s))
  {
    if items != [] {
      NoUsableItems(items[..|items| - 1], usable);
    }
  }

  lemma {:induction false} BareIff(delta: string -> bool, part: string -> bool, usable: string -> bool, j: Json)
    ensures InOrder(FullPolicy(delta, part, usable), j) == [] <==> Bare(delta, part, usable, j)
    decreases j, 1
  {
    match j
    case Object(_, fields) => BareFieldsIff(delta, part, usable, fields);
    case List(_, items) => BareItemsIff(delta, part, usable, items);
    case _ =>
  }

  lemma {:induction false} BareFieldsIff(
    delta: string -> bool, part: string -> bool, usable: string -> bool, fields: seq<Field>
  )
    ensures InOrderFields(FullPolicy(delta, part, usable), fields) == [] <==>
      forall i :: 0 <= i < |fields| ==> BareField(delta, part, usable, fields[i])
    decreases fields, 0
  {
    if fields != [] {
      BareFieldsIff(delta, part, usable, fields[..|fields| - 1]);
      BareFieldIff(delta, part, usable, fields[|fields| - 1]);
    }
  }

  lemma {:induction false} BareFieldIff(
    delta: string -> bool, part: string -> bool, usable: string -> bool, f: Field
  )
    ensures InOrderField(FullPolicy(delta, part, usable), f) == [] <==> BareField(delta, part, usable, f)
    decreases f, 0
  {
    BareIff(delta, part, usable, f.value);
    if f.value.List? {
      NoUsableItems(f.value.items, usable);
    }
  }

  lemma {:induction false} BareItemsIff(
    delta: string -> bool, part: string -> bool, usable: string -> bool, items: seq<Json>
  )
    ensures InOrderItems(FullPolicy(delta, part, usable), items) == [] <==>
      forall i :: 0 <= i < |items| ==> Bare(delta, part, usable, items[i])
    decreases items, 0
  {
    if items != [] {
      BareItemsIff(delta, part, usable, items[..|items| - 1]);
      BareIff(delta, part, usable, items[|items| - 1]);
    }
  }

  lemma {:induction false} NoneHiddenIff(delta: string -> bool, part: string -> bool, usable: string -> bool, j: Json)
    ensures Hidden(delta, part, usable, j) == [] <==> Exposed(delta, part, usable, j)
    decreases j, 1
  {
    match j
    case Object(_, fields) => NoneHiddenInFieldsIff(delta, part, usable, fields);
    case List(_, items) => NoneHiddenInItemsIff(delta, part, usable, items);
    case _ =>
  }

  lemma {:induction false} NoneHiddenInFieldsIff(
    delta: string -> bool, part: string -> bool, usable: string -> bool, fields: seq<Field>
  )
    ensures HiddenFields(delta, part, usable, fields) == [] <==>
      forall i :: 0 <= i < |fields| ==> ExposedField(delta, part, usable, fields[i])
    decreases fields, 0
  {
    if fields != [] {
      NoneHiddenInFieldsIff(delta, part, usable, fields[..|fields| - 1]);
      NoneHiddenInFieldIff(delta, part, usable, fields[|fields| - 1]);
    }
  }

  lemma {:induction false} NoneHiddenInFieldIff(
    delta: string -> bool, part: string -> bool, usable: string -> bool, f: Field
  )
    ensures HiddenField(delta, part, usable, f) == [] <==> ExposedField(delta, part, usable, f)
    decreases f, 0
  {
    BareIff(delta, part, usable, f.value);
    NoneHiddenIff(delta, part, usable, f.value);
  }

  lemma {:induction false} NoneHiddenInItemsIff(
    delta: string -> bool, part: string -> bool, usable: string -> bool, items: seq<Json>
  )
    ensures HiddenItems(delta, part, usable, items) == [] <==>
      forall i :: 0 <= i < |items| ==> Exposed(delta, part, usable, items[i])
    decreases items, 0
  {
    if items != [] {
      NoneHiddenInItemsIff(delta, part, usable, items[..|items| - 1]);
      NoneHiddenIff(delta, part, usable, items[|items| - 1]);
    }
  }

  /** The adapter pulls every text it promises if and only if every list under its keys is
  bare inside; otherwise what is hidden there is what it misses. */
  lemma {:induction false} AdapterFindsAllIffNoneHidden(
    delta: string -> bool, part: string -> bool, usable: string -> bool, j: Json
  )
    ensures var promised := multiset(InOrder(FullPolicy(delta, part, usable), j));
      && promised == multiset(Walk(AdapterPolicy(delta, part, usable), j)) + multiset(Hidden(delta, part, usable, j))
      && (promised == multiset(Walk(AdapterPolicy(delta, part, usable), j)) <==> Exposed(delta, part, usable, j))
  {
    NoneHiddenIff(delta, part, usable, j);
    AdapterSkips(delta, part, usable, j);
    WalkLosesNothing(AdapterPolicy(delta, part, usable), j);
  }

  /** The order of the walk: what is inside a later entry comes before what is inside an earlier
  one, while the entries of one object keep theirs. */
  lemma LaterBranchComesFirst(a: string, b: string, c: string)
    requires a != "" && b != "" && c != ""
    ensures var left := Object(1, [Field("x", Text(a)), Field("y", Text(b))]);
      var right := Object(2, [Field("z", Text(c))]);
      Walk(EnginePolicy((_, _) => true), Object(0, [Field("l", left), Field("r", right)]))
      == [("z", c), ("x", a), ("y", b)]
  {
    var p := EnginePolicy((_, _) => true);
    var x, y, z := Field("x", Text(a)), Field("y", Text(b)), Field("z", Text(c));
    var left, right := Object(1, [x, y]), Object(2, [z]);
    hide Own, WalkFields, Walk;
    OneText(p, 2, z, c);
    TwoTexts(p, 1, x, a, y, b);
    TwoBranches(p, 0, Field("l", left), Field("r", right));
  }

  lemma OneText(p: Policy<(string, string)>, id: nat, f: Field, s: string)
    requires p == EnginePolicy((_, _) => true) && f.value == Text(s) && s != ""
    ensures Own(p, [f]) == [(f.key, s)] && WalkFields(p, [f]) == []
    ensures Walk(p, Object(id, [f])) == [(f.key, s)]
  {
    hide Own, WalkFields;
    OneField(p, f);
  }

  lemma TwoTexts(p: Policy<(string, string)>, id: nat, f: Field, s: string, g: Field, t: string)
    requires p == EnginePolicy((_, _) => true) && f.value == Text(s) && g.value == Text(t) && s != "" && t != ""
    ensures Walk(p, Object(id, [f, g])) == [(f.key, s), (g.key, t)]
  {
    hide Own, WalkFields;
    OneText(p, id, f, s);
    OneFieldMore(p, [f], g);
    assert [f] + [g] == [f, g];
  }

  lemma TwoBranches(p: Policy<(string, string)>, id: nat, f: Field, g: Field)
    requires p == EnginePolicy((_, _) => true) && Container(f.value) && Container(g.value)
    ensures Walk(p, Object(id, [f, g])) == Walk(p, g.value) + Walk(p, f.value)
  {
    hide Own, WalkFields;
    OneField(p, f);
    OneFieldMore(p, [f], g);
    assert [f] + [g] == [f, g];
  }

  lemma OneFieldMore<T>(p: Policy<T>, fields: seq<Field>, f: Field)
    ensures Own(p, fields + [f]) == Own(p, fields) + p.own(f.key, f.value)
    ensures WalkFields(p, fields + [f]) == WalkField(p, f) + WalkFields(p, fields)
  {
    assert (fields + [f])[..|fields|] == fields;
  }

  /** A message part written as an object inside a list of contents. */
  function NestedContent(s: string): Json {
    Object(0, [Field("content", List(1, [Object(2, [Field("content", Text(s))])]))])
  }

  /** The adapter misses it. */
  lemma AdapterMissesNestedContent(delta: string -> bool, part: string -> bool, usable: string -> bool, s: string)
    requires delta("content") && usable(s)
    ensures var j := NestedContent(s);
      && Tree(j)
      && Walk(AdapterPolicy(delta, part, usable), j) == []
      && InOrder(FullPolicy(delta, part, usable), j) == [s]
  {
    hide NestedContent, Walk, InOrder, Tree;
    NestedContentIsATree(s);
    AdapterTakesNothing(delta, part, usable, s);
    FullPolicyTakesTheText(delta, part, usable, s);
  }

  lemma NestedContentIsATree(s: string)
    ensures Tree(NestedContent(s))
  {
    hide IdsFields, StackIds;
    var p := EnginePolicy((_, _) => true);
    var text := Field("content", Text(s));
    var item := Object(2, [text]);
    var list := Field("content", List(1, [item]));
    OneField(p, text);
    OneItem(p, item);
    OneField(p, list);
    assert Ids(NestedContent(s)) == multiset{0} + (multiset{1} + multiset{2});
  }

  lemma AdapterTakesNothing(delta: string -> bool, part: string -> bool, usable: string -> bool, s: string)
    requires delta("content")
    ensures Walk(AdapterPolicy(delta, part, usable), NestedContent(s)) == []
  {
    hide Own, WalkFields;
    var item := Object(2, [Field("content", Text(s))]);
    OneField(AdapterPolicy(delta, part, usable), Field("content", List(1, [item])));
    NoUsableItems([item], usable);
  }

  lemma FullPolicyTakesTheText(delta: string -> bool, part: string -> bool, usable: string -> bool, s: string)
    requires delta("content") && usable(s)
    ensures InOrder(FullPolicy(delta, part, usable), NestedContent(s)) == [s]
  {
    hide InOrderFields, InOrderItems, UsableItems;
    var full := FullPolicy(delta, part, usable);
    var text := Field("content", Text(s));
    var item := Object(2, [text]);
    var list := Field("content", List(1, [item]));
    OneField(full, text);
    OneItem(full, item);
    OneField(full, list);
    NoUsableItems([item], usable);
    assert InOrder(full, list.value) == [s];
  }

  lemma OneField<T>(p: Policy<T>, f: Field)
    ensures InOrderFields(p, [f]) == InOrderField(p, f)
    ensures Own(p, [f]) == p.own(f.key, f.value) && WalkFields(p, [f]) == WalkField(p, f)
    ensures IdsFields([f]) == Ids(f.value)
  {
    assert [f][..0] == [];
  }

  lemma OneItem<T>(p: Policy<T>, j: Json)
    ensures InOrderItems(p, [j]) == if Container(j) then InOrder(p, j) else []
    ensures StackIds([j]) == Ids(j)
  {
    assert [j][..0] == [];
  }

  method ExtractDeltas(root: Json, delta: string -> bool, part: string -> bool, usable: string -> bool)
    returns (found: seq<string>)
    requires Tree(root)
    ensures found == Walk(AdapterPolicy(delta, part, usable), root)
  {
    if root.Text? {
      return [];
    }
    found := WalkLoop(AdapterPolicy(delta, part, usable), root);
  }

  /** A text lies somewhere in the message under a key the engine keeps. */
  ghost predicate Occurs(j: Json, keep: (string, string) -> bool, k: string, s: string)
    decreases j, 1
  {
    match j
    case Object(_, fields) => exists i :: 0 <= i < |fields| && OccursIn(fields[i], keep, k, s)
    case List(_, items) => exists i :: 0 <= i < |items| && Occurs(items[i], keep, k, s)
    case _ => false
  }

  ghost predicate OccursIn(f: Field, keep: (string, string) -> bool, k: string, s: string)
    decreases f, 0
  {
    (f == Field(k, Text(s)) && s != [] && keep(k, s)) || Occurs(f.value, keep, k, s)
  }

  /** The engine's walk finds exactly the kept texts of the message, at any depth. */
  lemma {:induction false} EngineFindsAll(j: Json, keep: (string, string) -> bool, k: string, s: string)
    ensures (k, s) in Walk(EnginePolicy(keep), j) <==> Occurs(j, keep, k, s)
    decreases j, 1
  {
    match j
    case Object(_, fields) => EngineFindsAllFields(fields, keep, k, s);
    case List(_, items) => EngineFindsAllItems(items, keep, k, s);
    case _ =>
  }

  lemma {:induction false} EngineFindsAllFields(
    fields: seq<Field>, keep: (string, string) -> bool, k: string, s: string
  )
    ensures (k, s) in Own(EnginePolicy(keep), fields) + WalkFields(EnginePolicy(keep), fields) <==>
      exists i :: 0 <= i < |fields| && OccursIn(fields[i], keep, k, s)
    decreases fields, 0
  {
    if fields != [] {
      var before, last := fields[..|fields| - 1], fields[|fields| - 1];
      EngineFindsAllFields(before, keep, k, s);
      EngineFindsField(last, keep, k, s);
      assert forall i :: 0 <= i < |before| ==> before[i] == fields[i];
    }
  }

  lemma {:induction false} EngineFindsField(f: Field, keep: (string, string) -> bool, k: string, s: string)
    ensures (k, s) in EnginePolicy(keep).own(f.key, f.value) + WalkField(EnginePolicy(keep), f) <==>
      OccursIn(f, keep, k, s)
    decreases f, 0
  {
    EngineFindsAll(f.value, keep, k, s);
  }

  lemma {:induction false} EngineFindsAllItems(items: seq<Json>, keep: (string, string) -> bool, k: string, s: string)
    ensures (k, s) in WalkItems(EnginePolicy(keep), items) <==>
      exists i :: 0 <= i < |items| && Occurs(items[i], keep, k, s)
    decreases items, 0
  {
    if items != [] {
      var before, last := items[..|items| - 1], items[|items| - 1];
      EngineFindsAllItems(before, keep, k, s);
      EngineFindsAll(last, keep, k, s);
      assert forall i :: 0 <= i < |before| ==> before[i] == items[i];
    }
  }
}
