// cmd/metiq/config_cmd.go: flattenConfig.
//
// `marshal` stands for json.Marshal on a leaf.
module ConfigFlatten {
  import opened Wrappers
  import opened Json
  import opened ConfigPath
  import ConfigTree
  import Order
  import Text

  datatype Located = Located(steps: seq<Step>, value: Value)

  // ----- What is emitted: one line per leaf -----

  function SortKeys(keys: seq<string>): seq<string> { Order.Sort(keys, Order.AtMost) }

  ghost function SortedKeysOf(s: set<string>): seq<string> { SortKeys(Order.Enumerate(s)) }

  // The leaves below v, which sits at `at`, in the order they are visited.
  ghost function Leaves(v: Value, at: seq<Step>): seq<Located>
    decreases v, 1, 0
  {
    if v.Arr? then ItemLeaves(v, at, 0)
    else if v.Obj? then
      var keys := SortedKeysOf(v.fields.Keys);
      SortedKeysAreKeys(v.fields.Keys);
      FieldLeaves(v, at, keys)
    else [Located(at, v)]
  }

  ghost function ItemLeaves(v: Value, at: seq<Step>, i: nat): seq<Located>
    requires v.Arr? && i <= |v.items|
    decreases v, 0, |v.items| - i
  {
    if i == |v.items| then [] else Leaves(v.items[i], at + [Index(i)]) + ItemLeaves(v, at, i + 1)
  }

  ghost function FieldLeaves(v: Value, at: seq<Step>, keys: seq<string>): seq<Located>
    requires v.Obj? && forall k | k in keys :: k in v.fields
    decreases v, 0, |keys|
  {
    if keys == [] then []
    else Leaves(v.fields[keys[0]], at + [Key(keys[0])]) + FieldLeaves(v, at, keys[1..])
  }

  lemma SortedKeysAreKeys(s: set<string>)
    ensures forall k :: k in SortedKeysOf(s) <==> k in s
    ensures Order.NoRepeats(SortedKeysOf(s))
  {
    Order.StringOrder();
    Order.SortIsSorted(Order.Enumerate(s), Order.AtMost);
    Order.SortKeepsDistinct(Order.Enumerate(s), Order.AtMost);
  }

  // ----- Soundness, completeness and distinctness of the walk -----

  // The entries from `at` on, each really a leaf there.
  ghost predicate Genuine(v: Value, at: seq<Step>, out: seq<Located>)
  {
    forall l | l in out ::
      && at <= l.steps && ConfigTree.Get(v, l.steps[|at|..]) == Some(l.value) && l.value.Leaf()
  }

  lemma {:induction false} LeavesAreGenuine(v: Value, at: seq<Step>)
    ensures Genuine(v, at, Leaves(v, at))
    decreases v, 1, 0
  {
    if v.Arr? {
      ItemLeavesAreGenuine(v, at, 0);
    } else if v.Obj? {
      SortedKeysAreKeys(v.fields.Keys);
      FieldLeavesAreGenuine(v, at, SortedKeysOf(v.fields.Keys));
    } else {
      assert at[|at|..] == [];
    }
  }

  lemma {:induction false} GenuineBelow(v: Value, at: seq<Step>, step: Step, out: seq<Located>)
    requires ConfigTree.StepInto(v, step).Some?
    requires Genuine(ConfigTree.StepInto(v, step).value, at + [step], out)
    ensures Genuine(v, at, out)
    ensures forall l | l in out :: |l.steps| > |at| && l.steps[|at|] == step
  {
    forall l | l in out
      ensures at <= l.steps && ConfigTree.Get(v, l.steps[|at|..]) == Some(l.value)
      ensures |l.steps| > |at| && l.steps[|at|] == step
    {
      assert (at + [step])[|at|] == step;
      assert l.steps[|at|..][1..] == l.steps[|at + [step]|..];
      assert at == (at + [step])[..|at|];
    }
  }

  lemma {:induction false} ItemLeavesAreGenuine(v: Value, at: seq<Step>, i: nat)
    requires v.Arr? && i <= |v.items|
    ensures Genuine(v, at, ItemLeaves(v, at, i))
    ensures forall l | l in ItemLeaves(v, at, i) ::
              |l.steps| > |at| && l.steps[|at|].Index? && l.steps[|at|].index >= i
    decreases v, 0, |v.items| - i
  {
    if i < |v.items| {
      LeavesAreGenuine(v.items[i], at + [Index(i)]);
      GenuineBelow(v, at, Index(i), Leaves(v.items[i], at + [Index(i)]));
      ItemLeavesAreGenuine(v, at, i + 1);
    }
  }

  lemma {:induction false} FieldLeavesAreGenuine(v: Value, at: seq<Step>, keys: seq<string>)
    requires v.Obj? && forall k | k in keys :: k in v.fields
    ensures Genuine(v, at, FieldLeaves(v, at, keys))
    ensures forall l | l in FieldLeaves(v, at, keys) ::
              |l.steps| > |at| && l.steps[|at|].Key? && l.steps[|at|].key in keys
    decreases v, 0, |keys|
  {
    if keys != [] {
      LeavesAreGenuine(v.fields[keys[0]], at + [Key(keys[0])]);
      GenuineBelow(v, at, Key(keys[0]), Leaves(v.fields[keys[0]], at + [Key(keys[0])]));
      FieldLeavesAreGenuine(v, at, keys[1..]);
    }
  }

  lemma {:induction false} EveryLeafIsListed(v: Value, at: seq<Step>, p: seq<Step>)
    requires ConfigTree.Get(v, p).Some? && ConfigTree.Get(v, p).value.Leaf()
    ensures Located(at + p, ConfigTree.Get(v, p).value) in Leaves(v, at)
    decreases |p|
  {
    if p == [] {
      assert at + p == at;
    } else {
      var step, rest := p[0], p[1..];
      EveryLeafIsListed(ConfigTree.StepInto(v, step).value, at + [step], rest);
      assert at + [step] + rest == at + p;
      if step.Index? {
        ItemIsListed(v, at, 0, step.index);
      } else {
        SortedKeysAreKeys(v.fields.Keys);
        FieldIsListed(v, at, SortedKeysOf(v.fields.Keys), step.key);
      }
    }
  }

  lemma {:induction false} ItemIsListed(v: Value, at: seq<Step>, i: nat, n: nat)
    requires v.Arr? && i <= n < |v.items|
    ensures forall l | l in Leaves(v.items[n], at + [Index(n)]) :: l in ItemLeaves(v, at, i)
    decreases n - i
  {
    var here, rest := Leaves(v.items[i], at + [Index(i)]), ItemLeaves(v, at, i + 1);
    assert ItemLeaves(v, at, i) == here + rest;
    if i < n { ItemIsListed(v, at, i + 1, n); }
  }

  lemma {:induction false} FieldIsListed(v: Value, at: seq<Step>, keys: seq<string>, k: string)
    requires v.Obj? && k in keys && forall k | k in keys :: k in v.fields
    ensures forall l | l in Leaves(v.fields[k], at + [Key(k)]) :: l in FieldLeaves(v, at, keys)
  {
    if keys[0] != k { FieldIsListed(v, at, keys[1..], k); }
  }

  ghost predicate DistinctPlaces(out: seq<Located>)
  {
    forall i, j | 0 <= i < j < |out| :: out[i].steps != out[j].steps
  }

  // Two lists that differ at depth n throughout can be joined.
  lemma {:induction false} JoinDistinct(a: seq<Located>, b: seq<Located>, n: nat)
    requires DistinctPlaces(a) && DistinctPlaces(b)
    requires forall x, y | x in a && y in b :: |x.steps| > n && |y.steps| > n && x.steps[n] != y.steps[n]
    ensures DistinctPlaces(a + b)
  {
    forall i, j | 0 <= i < j < |a + b| ensures (a + b)[i].steps != (a + b)[j].steps {
      if i < |a| <= j {
        assert a[i] in a && b[j - |a|] in b;
      }
    }
  }

  lemma {:induction false} LeavesAreDistinct(v: Value, at: seq<Step>)
    ensures DistinctPlaces(Leaves(v, at))
    decreases v, 1, 0
  {
    if v.Arr? {
      ItemLeavesAreDistinct(v, at, 0);
    } else if v.Obj? {
      SortedKeysAreKeys(v.fields.Keys);
      FieldLeavesAreDistinct(v, at, SortedKeysOf(v.fields.Keys));
    }
  }

  lemma {:induction false} ItemLeavesAreDistinct(v: Value, at: seq<Step>, i: nat)
    requires v.Arr? && i <= |v.items|
    ensures DistinctPlaces(ItemLeaves(v, at, i))
    decreases v, 0, |v.items| - i
  {
    if i < |v.items| {
      var here, rest := Leaves(v.items[i], at + [Index(i)]), ItemLeaves(v, at, i + 1);
      LeavesAreDistinct(v.items[i], at + [Index(i)]);
      ItemLeavesAreDistinct(v, at, i + 1);
      LeavesAreGenuine(v.items[i], at + [Index(i)]);
      GenuineBelow(v, at, Index(i), here);
      ItemLeavesAreGenuine(v, at, i + 1);
      JoinDistinct(here, rest, |at|);
    }
  }

  lemma {:induction false} FieldLeavesAreDistinct(v: Value, at: seq<Step>, keys: seq<string>)
    requires v.Obj? && forall k | k in keys :: k in v.fields
    requires Order.NoRepeats(keys)
    ensures DistinctPlaces(FieldLeaves(v, at, keys))
    decreases v, 0, |keys|
  {
    if keys != [] {
      var here, rest := Leaves(v.fields[keys[0]], at + [Key(keys[0])]), FieldLeaves(v, at, keys[1..]);
      LeavesAreDistinct(v.fields[keys[0]], at + [Key(keys[0])]);
      FieldLeavesAreDistinct(v, at, keys[1..]);
      LeavesAreGenuine(v.fields[keys[0]], at + [Key(keys[0])]);
      GenuineBelow(v, at, Key(keys[0]), here);
      FieldLeavesAreGenuine(v, at, keys[1..]);
      JoinDistinct(here, rest, |at|);
    }
  }

  // ----- The program -----

  // A path printed after a prefix.
  function PrintFrom(prefix: string, steps: seq<Step>): string
  {
    if steps == [] then prefix else Child(PrintFrom(prefix, steps[..|steps| - 1]), steps[|steps| - 1])
  }

  lemma {:induction false} NoPrefix(steps: seq<Step>)
    ensures PrintFrom("", steps) == Print(steps)
  {
    if steps != [] { NoPrefix(steps[..|steps| - 1]); }
  }

  function Line(prefix: string, l: Located, marshal: Value -> string): string
  {
    PrintFrom(prefix, l.steps) + " = " + marshal(l.value)
  }

  // A line is its path, then its value after an equals sign.
  lemma {:induction false} LineReads(prefix: string, l: Located, marshal: Value -> string)
    ensures var path, line := PrintFrom(prefix, l.steps), Line(prefix, l, marshal);
            && path <= line && line[|path|..] == " = " + marshal(l.value)
  {
  }

  function Lines(prefix: string, ls: seq<Located>, marshal: Value -> string): (lines: seq<string>)
    ensures |lines| == |ls| && forall i | 0 <= i < |ls| :: lines[i] == Line(prefix, ls[i], marshal)
  {
    seq(|ls|, i requires 0 <= i < |ls| => Line(prefix, ls[i], marshal))
  }

  lemma LinesOfConcat(prefix: string, out: seq<string>, a: seq<Located>, b: seq<Located>, marshal: Value -> string)
    ensures out + Lines(prefix, a + b, marshal) == (out + Lines(prefix, a, marshal)) + Lines(prefix, b, marshal)
  {
  }

  lemma ItemLines(prefix: string, out: seq<string>, v: Value, at: seq<Step>, i: nat, marshal: Value -> string)
    requires v.Arr? && i < |v.items|
    ensures out + Lines(prefix, ItemLeaves(v, at, i), marshal) ==
            (out + Lines(prefix, Leaves(v.items[i], at + [Index(i)]), marshal)) +
            Lines(prefix, ItemLeaves(v, at, i + 1), marshal)
  {
    LinesOfConcat(prefix, out, Leaves(v.items[i], at + [Index(i)]), ItemLeaves(v, at, i + 1), marshal);
  }

  lemma FieldLines(prefix: string, out: seq<string>, v: Value, at: seq<Step>, keys: seq<string>,
                   marshal: Value -> string)
    requires v.Obj? && keys != [] && forall k | k in keys :: k in v.fields
    ensures out + Lines(prefix, FieldLeaves(v, at, keys), marshal) ==
            (out + Lines(prefix, Leaves(v.fields[keys[0]], at + [Key(keys[0])]), marshal)) +
            Lines(prefix, FieldLeaves(v, at, keys[1..]), marshal)
  {
    LinesOfConcat(prefix, out, Leaves(v.fields[keys[0]], at + [Key(keys[0])]), FieldLeaves(v, at, keys[1..]), marshal);
  }

  lemma PrintChild(prefix: string, at: seq<Step>, step: Step)
    ensures PrintFrom(prefix, at + [step]) == Child(PrintFrom(prefix, at), step)
  {
    assert (at + [step])[..|at|] == at;
  }

  method SortedKeys(s: set<string>) returns (keys: seq<string>)
    ensures keys == SortedKeysOf(s)
  {
    var found := Order.List(s);
    keys := SortKeys(found);
    Order.StringOrder();
    Order.SameElementsSameSort(found, Order.Enumerate(s), Order.AtMost);
  }

  method Walk(path: string, v: Value, before: seq<string>, marshal: Value -> string,
              ghost prefix: string, ghost at: seq<Step>)
    returns (out: seq<string>)
    requires path == PrintFrom(prefix, at)
    ensures out == before + Lines(prefix, Leaves(v, at), marshal)
    decreases v, 1
  {
    match v
    case Obj(fields) => out := WalkFields(path, v, before, marshal, prefix, at);
    case Arr(items) => out := WalkItems(path, v, before, marshal, prefix, at);
    case _ => out := before + [path + " = " + marshal(v)];
  }

  method WalkItems(path: string, v: Value, before: seq<string>, marshal: Value -> string,
                   ghost prefix: string, ghost at: seq<Step>)
    returns (out: seq<string>)
    requires v.Arr? && path == PrintFrom(prefix, at)
    ensures out == before + Lines(prefix, ItemLeaves(v, at, 0), marshal)
    decreases v, 0
  {
    out := before;
    ghost var all := before + Lines(prefix, ItemLeaves(v, at, 0), marshal);
    for i := 0 to |v.items|
      invariant out + Lines(prefix, ItemLeaves(v, at, i), marshal) == all
    {
      PrintChild(prefix, at, Index(i));
      ItemLines(prefix, out, v, at, i, marshal);
      out := Walk(Child(path, Index(i)), v.items[i], out, marshal, prefix, at + [Index(i)]);
    }
  }

  method WalkFields(path: string, v: Value, before: seq<string>, marshal: Value -> string,
                    ghost prefix: string, ghost at: seq<Step>)
    returns (out: seq<string>)
    requires v.Obj? && path == PrintFrom(prefix, at)
    ensures out == before + Lines(prefix, Leaves(v, at), marshal)
    decreases v, 0
  {
    var keys := SortedKeys(v.fields.Keys);
    SortedKeysAreKeys(v.fields.Keys);
    out := before;
    var todo := keys;
    ghost var all := before + Lines(prefix, FieldLeaves(v, at, keys), marshal);
    while todo != []
      invariant forall k | k in todo :: k in v.fields
      invariant out + Lines(prefix, FieldLeaves(v, at, todo), marshal) == all
    {
      var k := todo[0];
      PrintChild(prefix, at, Key(k));
      FieldLines(prefix, out, v, at, todo, marshal);
      out := Walk(Child(path, Key(k)), v.fields[k], out, marshal, prefix, at + [Key(k)]);
      todo := todo[1..];
    }
  }

  // One line per leaf and no other, sorted.
  method FlattenConfig(root: Value, prefix: string, marshal: Value -> string) returns (lines: seq<string>)
    ensures multiset(lines) == multiset(Lines(prefix, Leaves(root, []), marshal))
    ensures Order.Sorted(lines, Order.AtMost)
  {
    var out := Walk(prefix, root, [], marshal, prefix, []);
    assert out == Lines(prefix, Leaves(root, []), marshal);
    lines := Order.Sort(out, Order.AtMost);
    Order.StringOrder();
    Order.SortIsSorted(out, Order.AtMost);
  }

  // ----- Reading the printed paths back -----

  predicate CleanTree(v: Value)
  {
    match v
    case Arr(items) => |items| <= Text.MAX_INT && forall i | 0 <= i < |items| :: CleanTree(items[i])
    case Obj(fields) => forall k | k in fields :: CleanKey(k) && CleanTree(fields[k])
    case _ => true
  }

  lemma {:induction false} CleanTreeCleanPaths(v: Value, p: seq<Step>)
    requires CleanTree(v) && ConfigTree.Get(v, p).Some?
    ensures Clean(p)
    decreases |p|
  {
    if p != [] {
      CleanTreeCleanPaths(ConfigTree.StepInto(v, p[0]).value, p[1..]);
      assert p == [p[0]] + p[1..];
    }
  }

  // For a clean tree the listing is a bijection: every leaf has one entry, the printed
  // paths differ, and parsing and looking one up gives its leaf.
  lemma FlattenRoundTrip(root: Value)
    requires root.Obj? && CleanTree(root)
    ensures var ls := Leaves(root, []);
            && (forall l | l in ls ::
                  && Parse(Print(l.steps)) == Ok(l.steps)
                  && ConfigTree.Get(root, l.steps) == Some(l.value) && l.value.Leaf())
            && (forall p | ConfigTree.Get(root, p).Some? && ConfigTree.Get(root, p).value.Leaf() ::
                  Located(p, ConfigTree.Get(root, p).value) in ls)
            && (forall i, j | 0 <= i < j < |ls| :: Print(ls[i].steps) != Print(ls[j].steps))
            && (forall l | l in ls :: PrintFrom("", l.steps) == Print(l.steps))
  {
    var ls := Leaves(root, []);
    LeavesAreGenuine(root, []);
    LeavesAreDistinct(root, []);
    forall l | l in ls
      ensures Parse(Print(l.steps)) == Ok(l.steps)
      ensures ConfigTree.Get(root, l.steps) == Some(l.value) && l.value.Leaf()
    {
      assert l.steps[0..] == l.steps;
      CleanTreeCleanPaths(root, l.steps);
      PrintThenParse(l.steps);
    }
    forall l | l in ls ensures PrintFrom("", l.steps) == Print(l.steps) { NoPrefix(l.steps); }
    forall p | ConfigTree.Get(root, p).Some? && ConfigTree.Get(root, p).value.Leaf()
      ensures Located(p, ConfigTree.Get(root, p).value) in ls
    {
      EveryLeafIsListed(root, [], p);
      assert [] + p == p;
    }
    forall i, j | 0 <= i < j < |ls| ensures Print(ls[i].steps) != Print(ls[j].steps) {
      assert ls[i] in ls && ls[j] in ls;
    }
  }
}
