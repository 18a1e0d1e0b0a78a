// cmd/metiq/config_cmd.go: getPath, setPath, unsetPath and mergeMap.
//
// The source changes nested maps in place; here each operation returns the tree it
// leaves behind, also when it reports an error part of the way down.
module ConfigTree {
  import opened Wrappers
  import opened Json
  import opened ConfigPath

  // ----- Reading -----

  function StepInto(v: Value, step: Step): Option<Value>
  {
    match step
    case Index(i) => if v.Arr? && i < |v.items| then Some(v.items[i]) else None
    case Key(k) => if v.Obj? && k in v.fields then Some(v.fields[k]) else None
  }

  function Get(v: Value, steps: seq<Step>): Option<Value>
    decreases |steps|
  {
    if steps == [] then Some(v)
    else
      var next := StepInto(v, steps[0]);
      if next.None? then None else Get(next.value, steps[1..])
  }

  method GetPath(root: Value, path: string) returns (r: Option<Value>)
    ensures r == if Parse(path).Err? then None else Get(root, Parse(path).value)
  {
    var parsed := ParseConfigPath(path);
    if parsed.Err? {
      return None;
    }
    var steps, cur := parsed.value, root;
    assert steps[0..] == steps;
    for i := 0 to |steps|
      invariant Get(cur, steps[i..]) == Get(root, steps)
    {
      assert steps[i..][1..] == steps[i + 1..];
      match steps[i]
      case Index(n) =>
        if !cur.Arr? || n >= |cur.items| {
          return None;
        }
        cur := cur.items[n];
      case Key(k) =>
        if !cur.Obj? || k !in cur.fields {
          return None;
        }
        cur := cur.fields[k];
    }
    r := Some(cur);
  }

  // Neither path is a prefix of the other.
  ghost predicate Diverge(p: seq<Step>, q: seq<Step>)
  {
    p != [] && q != [] && (p[0] != q[0] || Diverge(p[1..], q[1..]))
  }

  // ----- Writing -----

  datatype Written = Written(tree: Value, ok: bool)

  // Put `child` where `step` leads; an absent key is created.
  function Put(v: Value, step: Step, child: Value): Value
    requires StepInto(v, step).Some? || (v.Obj? && step.Key?)
  {
    if step.Index? then Arr(v.items[step.index := child]) else Obj(v.fields[step.key := child])
  }

  function Set(v: Value, steps: seq<Step>, value: Value): Written
    decreases |steps|
  {
    if steps == [] then Written(v, false)
    else
      var step := steps[0];
      var next := StepInto(v, step);
      if next.None? && !(v.Obj? && step.Key?) then Written(v, false)
      else if |steps| == 1 then Written(Put(v, step, value), true)
      else
        var below := Set(if next.Some? then next.value else Obj(map[]), steps[1..], value);
        Written(Put(v, step, below.tree), below.ok)
  }

  lemma {:induction false} PutThenStep(v: Value, step: Step, child: Value, other: Step)
    requires StepInto(v, step).Some? || (v.Obj? && step.Key?)
    ensures StepInto(Put(v, step, child), other) == if other == step then Some(child) else StepInto(v, other)
  {
  }

  lemma {:induction false} SetThenGet(v: Value, steps: seq<Step>, value: Value)
    requires Set(v, steps, value).ok
    ensures Get(Set(v, steps, value).tree, steps) == Some(value)
    decreases |steps|
  {
    var step := steps[0];
    var next := StepInto(v, step);
    if |steps| == 1 {
      PutThenStep(v, step, value, step);
    } else {
      var inner := if next.Some? then next.value else Obj(map[]);
      SetThenGet(inner, steps[1..], value);
      PutThenStep(v, step, Set(inner, steps[1..], value).tree, step);
    }
  }

  // Whether or not the set succeeds, no diverging path can tell.
  lemma {:induction false} SetFrame(v: Value, steps: seq<Step>, value: Value, p: seq<Step>)
    requires Diverge(steps, p)
    ensures Get(Set(v, steps, value).tree, p) == Get(v, p)
    decreases |steps|
  {
    var step := steps[0];
    var next := StepInto(v, step);
    if next.None? && !(v.Obj? && step.Key?) {
    } else if |steps| == 1 {
      PutThenStep(v, step, value, p[0]);
    } else {
      var inner := if next.Some? then next.value else Obj(map[]);
      PutThenStep(v, step, Set(inner, steps[1..], value).tree, p[0]);
      if p[0] == step {
        SetFrame(inner, steps[1..], value, p[1..]);
        if next.None? {
          assert Get(inner, p[1..]).None?;
        }
      }
    }
  }

  // A set that fails below has at most created empty objects on its way: every leaf is
  // where it was.
  lemma {:induction false} FailedSetKeepsLeaves(v: Value, steps: seq<Step>, value: Value, p: seq<Step>)
    requires !Set(v, steps, value).ok
    requires Get(v, p).Some? && Get(v, p).value.Leaf()
    ensures Get(Set(v, steps, value).tree, p) == Get(v, p)
    decreases |steps|
  {
    if steps != [] && |steps| > 1 && p != [] {
      var step := steps[0];
      var next := StepInto(v, step);
      if next.Some? || (v.Obj? && step.Key?) {
        var inner := if next.Some? then next.value else Obj(map[]);
        PutThenStep(v, step, Set(inner, steps[1..], value).tree, p[0]);
        if p[0] == step {
          FailedSetKeepsLeaves(inner, steps[1..], value, p[1..]);
        }
      }
    }
  }

  predicate KeysOnly(steps: seq<Step>) { forall s | s in steps :: s.Key? }

  // Following the first k steps ends at an object that lacks the next key, and only keys
  // are left to follow.
  ghost predicate OpenAt(v: Value, steps: seq<Step>, k: nat)
  {
    && k < |steps| && KeysOnly(steps[k..])
    && var parent := Get(v, steps[..k]);
       parent.Some? && parent.value.Obj? && steps[k].key !in parent.value.fields
  }

  // The path is there already, or can be created.
  ghost predicate Settable(v: Value, steps: seq<Step>)
  {
    steps != [] && (Get(v, steps).Some? || exists k :: OpenAt(v, steps, k))
  }

  lemma {:induction false} OpenBelow(v: Value, steps: seq<Step>, k: nat)
    requires steps != [] && StepInto(v, steps[0]).Some?
    ensures OpenAt(v, steps, k + 1) <==> OpenAt(StepInto(v, steps[0]).value, steps[1..], k)
    ensures !OpenAt(v, steps, 0)
  {
    if k + 1 < |steps| {
      assert steps[..k + 1][0] == steps[0] && steps[..k + 1][1..] == steps[1..][..k];
      assert steps[1..][k..] == steps[k + 1..];
    }
  }

  lemma {:induction false} SettableBelow(v: Value, steps: seq<Step>)
    requires |steps| > 1 && StepInto(v, steps[0]).Some?
    ensures Settable(v, steps) <==> Settable(StepInto(v, steps[0]).value, steps[1..])
  {
    var next, rest := StepInto(v, steps[0]).value, steps[1..];
    if k: nat :| OpenAt(v, steps, k) {
      OpenBelow(v, steps, if k == 0 then 0 else k - 1);
    }
    if k: nat :| OpenAt(next, rest, k) {
      OpenBelow(v, steps, k);
    }
  }

  // From an empty object on, only keys can be created.
  lemma {:induction false} SetInEmpty(steps: seq<Step>, value: Value)
    ensures Set(Obj(map[]), steps, value).ok <==> steps != [] && KeysOnly(steps)
    decreases |steps|
  {
    if steps != [] {
      assert steps == [steps[0]] + steps[1..];
      SetInEmpty(steps[1..], value);
    }
  }

  lemma {:induction false} SettableHere(v: Value, steps: seq<Step>)
    requires steps != [] && StepInto(v, steps[0]).None?
    ensures Settable(v, steps) <==> v.Obj? && KeysOnly(steps)
  {
    assert steps[..0] == [] && steps[0..] == steps;
    if v.Obj? && KeysOnly(steps) {
      assert OpenAt(v, steps, 0);
    }
  }

  // Exactly when a set succeeds.
  lemma {:induction false} SetSucceedsIff(v: Value, steps: seq<Step>, value: Value)
    ensures Set(v, steps, value).ok <==> Settable(v, steps)
    decreases |steps|
  {
    if steps != [] {
      var next := StepInto(v, steps[0]);
      if next.None? {
        SettableHere(v, steps);
        SetInEmpty(steps[1..], value);
        assert steps == [steps[0]] + steps[1..];
      } else if |steps| == 1 {
        assert Get(next.value, steps[1..]).Some?;
      } else {
        SettableBelow(v, steps);
        SetSucceedsIff(next.value, steps[1..], value);
      }
    }
  }

  method SetPath(root: Value, path: string, value: Value) returns (r: Written)
    ensures r.ok <==> Parse(path).Ok? && Settable(root, Parse(path).value)
    ensures Parse(path).Err? ==> r == Written(root, false)
    ensures r.ok ==> Get(r.tree, Parse(path).value) == Some(value)
    ensures Parse(path).Ok? ==> forall p | Diverge(Parse(path).value, p) :: Get(r.tree, p) == Get(root, p)
    ensures !r.ok ==> forall p | Get(root, p).Some? && Get(root, p).value.Leaf() :: Get(r.tree, p) == Get(root, p)
  {
    var parsed := ParseConfigPath(path);
    if parsed.Err? {
      return Written(root, false);
    }
    r := Set(root, parsed.value, value);
    SetSucceedsIff(root, parsed.value, value);
    if r.ok {
      SetThenGet(root, parsed.value, value);
    } else {
      forall p | Get(root, p).Some? && Get(root, p).value.Leaf() ensures Get(r.tree, p) == Get(root, p) {
        FailedSetKeepsLeaves(root, parsed.value, value, p);
      }
    }
    forall p | Diverge(parsed.value, p) ensures Get(r.tree, p) == Get(root, p) {
      SetFrame(root, parsed.value, value, p);
    }
  }

  // ----- Removing -----

  function Unset(v: Value, steps: seq<Step>): Written
    requires steps != []
    decreases |steps|
  {
    var step := steps[0];
    if step.Index? || StepInto(v, step).None? then Written(v, false)
    else if |steps| == 1 then Written(Obj(v.fields - {step.key}), true)
    else
      var below := Unset(v.fields[step.key], steps[1..]);
      Written(Obj(v.fields[step.key := below.tree]), below.ok)
  }

  lemma {:induction false} UnsetIffPresent(v: Value, steps: seq<Step>)
    requires steps != []
    ensures Unset(v, steps).ok <==> Get(v, steps).Some? && forall s | s in steps :: s.Key?
    ensures !Unset(v, steps).ok ==> Unset(v, steps).tree == v
    ensures Unset(v, steps).ok ==> Get(Unset(v, steps).tree, steps).None?
    decreases |steps|
  {
    assert steps == [steps[0]] + steps[1..];
    if steps[0].Key? && StepInto(v, steps[0]).Some? && |steps| > 1 {
      UnsetIffPresent(v.fields[steps[0].key], steps[1..]);
    }
  }

  lemma {:induction false} UnsetFrame(v: Value, steps: seq<Step>, p: seq<Step>)
    requires steps != [] && Diverge(steps, p)
    ensures Get(Unset(v, steps).tree, p) == Get(v, p)
    decreases |steps|
  {
    if steps[0].Key? && StepInto(v, steps[0]).Some? && |steps| > 1 && p[0] == steps[0] {
      UnsetFrame(v.fields[steps[0].key], steps[1..], p[1..]);
    }
  }

  method UnsetPath(root: Value, path: string) returns (r: Written)
    ensures r.ok <==> && Parse(path).Ok? && Parse(path).value != [] && Get(root, Parse(path).value).Some?
                      && forall s | s in Parse(path).value :: s.Key?
    ensures !r.ok ==> r.tree == root
    ensures r.ok ==> Get(r.tree, Parse(path).value).None?
    ensures r.ok ==> forall p | Diverge(Parse(path).value, p) :: Get(r.tree, p) == Get(root, p)
  {
    var parsed := ParseConfigPath(path);
    if parsed.Err? || parsed.value == [] {
      return Written(root, false);
    }
    r := Unset(root, parsed.value);
    UnsetIffPresent(root, parsed.value);
    forall p | Diverge(parsed.value, p) ensures Get(r.tree, p) == Get(root, p) {
      UnsetFrame(root, parsed.value, p);
    }
  }

  // ----- Merging -----

  // The source ranges over the patch's keys in no particular order; each key is
  // decided on its own.
  function Merge(dst: Value, src: Value): (r: Value)
    requires dst.Obj? && src.Obj?
    ensures r.Obj?
    decreases src
  {
    Obj(map k | k in dst.fields.Keys + src.fields.Keys ::
          if k in src.fields then MergeField(dst, src, k) else dst.fields[k])
  }

  function MergeField(dst: Value, src: Value, k: string): Value
    requires dst.Obj? && src.Obj? && k in src.fields
    decreases src, 0
  {
    var v := src.fields[k];
    if v.Obj? && k in dst.fields && dst.fields[k].Obj? then Merge(dst.fields[k], v) else v
  }

  // `fields` is `was` with the keys of `patch` outside `todo` brought to `goal`.
  ghost predicate Partway(was: map<string, Value>, patch: set<string>, goal: map<string, Value>,
                          fields: map<string, Value>, todo: set<string>)
  {
    && todo <= patch && goal.Keys == was.Keys + patch
    && fields.Keys == was.Keys + (patch - todo)
    && forall k | k in fields :: fields[k] == if k in patch && k !in todo then goal[k] else was[k]
  }

  lemma PartwayStep(was: map<string, Value>, patch: set<string>, goal: map<string, Value>,
                    fields: map<string, Value>, todo: set<string>, k: string)
    requires Partway(was, patch, goal, fields, todo) && k in todo
    ensures Partway(was, patch, goal, fields[k := goal[k]], todo - {k})
  {
  }

  lemma PartwayDone(was: map<string, Value>, patch: set<string>, goal: map<string, Value>,
                    fields: map<string, Value>)
    requires Partway(was, patch, goal, fields, {})
    requires forall k | k in goal && k !in patch :: goal[k] == was[k]
    ensures fields == goal
  {
  }

  method MergeMap(dst: Value, src: Value) returns (r: Value)
    requires dst.Obj? && src.Obj?
    ensures r == Merge(dst, src)
    decreases src, 1
  {
    var fields, todo := dst.fields, src.fields.Keys;
    ghost var goal := Merge(dst, src).fields;
    assert forall k | k in goal && k !in src.fields.Keys :: goal[k] == dst.fields[k];
    while todo != {}
      invariant Partway(dst.fields, src.fields.Keys, goal, fields, todo)
      decreases |todo|
    {
      var k :| k in todo;
      var v := MergeOne(dst, src, k);
      PartwayStep(dst.fields, src.fields.Keys, goal, fields, todo, k);
      fields := fields[k := v];
      todo := todo - {k};
    }
    PartwayDone(dst.fields, src.fields.Keys, goal, fields);
    r := Obj(fields);
  }

  // The loop body, for one key of the patch.
  method MergeOne(dst: Value, src: Value, k: string) returns (v: Value)
    requires dst.Obj? && src.Obj? && k in src.fields
    ensures v == MergeField(dst, src, k)
    decreases src, 0
  {
    v := src.fields[k];
    if v.Obj? && k in dst.fields && dst.fields[k].Obj? {
      v := MergeMap(dst.fields[k], v);
    }
  }

  lemma {:induction false} MergeSelf(s: Value)
    requires s.Obj?
    ensures Merge(s, s) == s
    decreases s
  {
    forall k | k in s.fields ensures MergeField(s, s, k) == s.fields[k] {
      if s.fields[k].Obj? { MergeSelf(s.fields[k]); }
    }
    assert Merge(s, s).fields == s.fields;
  }

  lemma {:induction false} MergeIsIdempotent(d: Value, s: Value)
    requires d.Obj? && s.Obj?
    ensures Merge(Merge(d, s), s) == Merge(d, s)
    decreases s
  {
    var once := Merge(d, s);
    forall k | k in s.fields ensures MergeField(once, s, k) == once.fields[k] {
      var v := s.fields[k];
      assert once.fields[k] == MergeField(d, s, k);
      if v.Obj? {
        if k in d.fields && d.fields[k].Obj? {
          MergeIsIdempotent(d.fields[k], v);
        } else {
          MergeSelf(v);
        }
      }
    }
    assert Merge(once, s).fields == once.fields;
  }

  // Every value of the patch that is not an object is found at its path afterwards,
  // nulls included.
  lemma {:induction false} MergeDeliversPatch(d: Value, s: Value, p: seq<Step>)
    requires d.Obj? && s.Obj?
    requires Get(s, p).Some? && !Get(s, p).value.Obj?
    ensures Get(Merge(d, s), p) == Get(s, p)
    decreases |p|
  {
    var k := p[0].key;
    if s.fields[k].Obj? && k in d.fields && d.fields[k].Obj? {
      MergeDeliversPatch(d.fields[k], s.fields[k], p[1..]);
    }
  }

  // The patch does not reach p: following p, it runs out at a missing key.
  ghost predicate ClearOf(s: Value, p: seq<Step>)
  {
    s.Obj? && p != [] && p[0].Key? && (p[0].key !in s.fields || ClearOf(s.fields[p[0].key], p[1..]))
  }

  // Exactly which leaves of the target survive: those the patch does not reach.  At the
  // others the patch decides.
  lemma {:induction false} MergeAtTargetLeaf(d: Value, s: Value, p: seq<Step>)
    requires d.Obj? && s.Obj?
    requires Get(d, p).Some? && Get(d, p).value.Leaf()
    ensures Get(Merge(d, s), p) == if ClearOf(s, p) then Get(d, p) else Get(s, p)
    decreases |p|
  {
    var k := p[0].key;
    if k in s.fields && s.fields[k].Obj? && d.fields[k].Obj? {
      MergeAtTargetLeaf(d.fields[k], s.fields[k], p[1..]);
    }
  }
}
