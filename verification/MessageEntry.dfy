// cmd/metiqd/control_rpc_message.go: the edit, react and delete verbs of message.action
// on one transcript entry, under its entry lock.
module MessageEntry {
  import opened Wrappers
  import opened Json
  import Order
  import Text

  type Meta = map<string, Value>

  // ----- Reactions: actor -> sorted list, kept under meta["reactions"] -----

  function StringsIn(items: seq<Value>): seq<string>
  {
    if items == [] then []
    else (if items[0].Str? then [items[0].s] else []) + StringsIn(items[1..])
  }

  // metaStringSlice
  function StringSlice(v: Value): seq<string> { if v.Arr? then StringsIn(v.items) else [] }

  // toAnySlice
  function AnySlice(s: seq<string>): (v: Value)
    ensures v.Arr? && |v.items| == |s| && forall i | 0 <= i < |s| :: v.items[i] == Str(s[i])
  {
    Arr(seq(|s|, i requires 0 <= i < |s| => Str(s[i])))
  }

  function Reactions(meta: Meta): map<string, Value>
  {
    if "reactions" in meta && meta["reactions"].Obj? then meta["reactions"].fields else map[]
  }

  function ActorList(reactions: map<string, Value>, actor: string): seq<string>
  {
    if actor in reactions then StringSlice(reactions[actor]) else []
  }

  function Without(s: seq<string>, x: string): seq<string>
  {
    if s == [] then [] else (if s[0] != x then [s[0]] else []) + Without(s[1..], x)
  }

  function SortStrings(s: seq<string>): seq<string> { Order.Sort(s, Order.AtMost) }

  function NewReactions(reactions: map<string, Value>, actor: string, reaction: string, remove: bool)
    : map<string, Value>
  {
    var list := ActorList(reactions, actor);
    if remove then
      var left := Without(list, reaction);
      if left == [] then reactions - {actor} else reactions[actor := AnySlice(left)]
    else
      reactions[actor := AnySlice(if reaction in list then list else SortStrings(list + [reaction]))]
  }

  function WithReactions(meta: Meta, reactions: map<string, Value>): Meta
  {
    if reactions == map[] then meta - {"reactions"} else meta["reactions" := Obj(reactions)]
  }

  function Reacted(meta: Meta, actor: string, reaction: string, remove: bool): Meta
  {
    WithReactions(meta, NewReactions(Reactions(meta), actor, reaction, remove))
  }

  // What a reactions map means: who reacted with what.
  ghost function Pairs(reactions: map<string, Value>): set<(string, string)>
  {
    set a, r | a in reactions && r in ActorList(reactions, a) :: (a, r)
  }

  ghost predicate StrictlySorted(s: seq<string>)
  {
    forall i, j | 0 <= i < j < |s| :: Order.Less(s[i], s[j])
  }

  ghost predicate KeptList(v: Value)
  {
    exists s :: s != [] && StrictlySorted(s) && v == AnySlice(s)
  }

  ghost predicate Kept(reactions: map<string, Value>)
  {
    forall a | a in reactions :: KeptList(reactions[a])
  }

  lemma {:induction false} StringsInStrings(items: seq<Value>, s: seq<string>)
    requires |items| == |s| && forall i | 0 <= i < |s| :: items[i] == Str(s[i])
    ensures StringsIn(items) == s
  {
    if s != [] {
      StringsInStrings(items[1..], s[1..]);
      assert s == [s[0]] + s[1..];
    }
  }

  lemma {:induction false} SliceOfSlice(s: seq<string>)
    ensures StringSlice(AnySlice(s)) == s
  {
    StringsInStrings(AnySlice(s).items, s);
  }

  lemma {:induction false} WithoutMembers(s: seq<string>, x: string)
    ensures forall y :: y in Without(s, x) <==> y in s && y != x
  {
    if s != [] {
      WithoutMembers(s[1..], x);
      assert s == [s[0]] + s[1..];
    }
  }

  lemma {:induction false} WithoutKeepsOrder(s: seq<string>, x: string)
    requires StrictlySorted(s)
    ensures StrictlySorted(Without(s, x))
  {
    if s != [] {
      WithoutKeepsOrder(s[1..], x);
      WithoutMembers(s[1..], x);
      forall y | y in Without(s[1..], x) ensures Order.Less(s[0], y) {
        assert y in s[1..];
      }
    }
  }

  lemma {:induction false} SortedWithNew(list: seq<string>, x: string)
    ensures forall y :: y in SortStrings(list + [x]) <==> y in list || y == x
    ensures StrictlySorted(list) && x !in list ==> StrictlySorted(SortStrings(list + [x]))
  {
    var t := SortStrings(list + [x]);
    Order.StringOrder();
    Order.SortIsSorted(list + [x], Order.AtMost);
    if StrictlySorted(list) && x !in list {
      forall i, j | 0 <= i < j < |t| ensures Order.Less(t[i], t[j]) {
        assert Order.AtMost(t[i], t[j]);
        Order.LessIsTotal(t[i], t[j]);
        if t[i] == t[j] {
          Twice(t, i, j);
          Once(list, x, t[i]);
        }
      }
    }
  }

  lemma {:induction false} Twice(t: seq<string>, i: nat, j: nat)
    requires i < j < |t| && t[i] == t[j]
    ensures multiset(t)[t[i]] >= 2
  {
    assert t == t[..i] + [t[i]] + t[i + 1..];
    assert t[i + 1..][j - i - 1] == t[j];
    assert t[j] in multiset(t[i + 1..]);
  }

  lemma {:induction false} CountInSorted(list: seq<string>, y: string)
    requires StrictlySorted(list)
    ensures multiset(list)[y] <= 1
  {
    if list != [] {
      CountInSorted(list[1..], y);
      var rest := list[1..];
      assert list == [list[0]] + rest;
      forall i | 0 <= i < |rest| ensures rest[i] != list[0] {
        Order.LessIsTotal(list[0], list[i + 1]);
        assert Order.Less(list[0], list[i + 1]);
      }
      assert list[0] !in multiset(rest);
    }
  }

  lemma {:induction false} Once(list: seq<string>, x: string, y: string)
    requires StrictlySorted(list) && x !in list
    ensures multiset(list + [x])[y] <= 1
  {
    CountInSorted(list, y);
  }

  // The list stored for the actor after the call, and only that one changes.
  lemma {:induction false} NewReactionsLists(reactions: map<string, Value>, actor: string, reaction: string,
                                             remove: bool)
    ensures var r' := NewReactions(reactions, actor, reaction, remove);
            && (forall a | a != actor :: ActorList(r', a) == ActorList(reactions, a) && (a in r' <==> a in reactions))
            && (forall y :: y in ActorList(r', actor) <==>
                  if y == reaction then !remove else y in ActorList(reactions, actor))
  {
    var list := ActorList(reactions, actor);
    WithoutMembers(list, reaction);
    SortedWithNew(list, reaction);
    SliceOfSlice(Without(list, reaction));
    SliceOfSlice(list);
    SliceOfSlice(SortStrings(list + [reaction]));
  }

  lemma {:induction false} PairsByList(reactions: map<string, Value>, a: string, y: string)
    ensures (a, y) in Pairs(reactions) <==> y in ActorList(reactions, a)
  {
  }

  // Refinement: the map of lists behaves as a set of pairs.
  lemma {:induction false} ReactionsAreASet(reactions: map<string, Value>, actor: string, reaction: string,
                                            remove: bool)
    ensures Pairs(NewReactions(reactions, actor, reaction, remove)) ==
            if remove then Pairs(reactions) - {(actor, reaction)} else Pairs(reactions) + {(actor, reaction)}
  {
    var r' := NewReactions(reactions, actor, reaction, remove);
    var goal := if remove then Pairs(reactions) - {(actor, reaction)} else Pairs(reactions) + {(actor, reaction)};
    forall p: (string, string) ensures p in Pairs(r') <==> p in goal {
      NewReactionsLists(reactions, actor, reaction, remove);
      PairsByList(r', p.0, p.1);
      PairsByList(reactions, p.0, p.1);
    }
  }

  lemma {:induction false} KeptSlice(list: seq<string>)
    requires list != [] && StrictlySorted(list)
    ensures KeptList(AnySlice(list))
  {
  }

  lemma {:induction false} KeptActorList(reactions: map<string, Value>, actor: string)
    requires Kept(reactions)
    ensures StrictlySorted(ActorList(reactions, actor))
  {
    if actor in reactions {
      var s :| s != [] && StrictlySorted(s) && reactions[actor] == AnySlice(s);
      SliceOfSlice(s);
    }
  }

  // Lists stay strictly sorted and non-empty.
  lemma {:induction false} ReactionsStayKept(reactions: map<string, Value>, actor: string, reaction: string,
                                             remove: bool)
    requires Kept(reactions)
    ensures Kept(NewReactions(reactions, actor, reaction, remove))
  {
    var list := ActorList(reactions, actor);
    KeptActorList(reactions, actor);
    if remove {
      var left := Without(list, reaction);
      WithoutKeepsOrder(list, reaction);
      if left != [] { KeptSlice(left); }
    } else {
      var longer := if reaction in list then list else SortStrings(list + [reaction]);
      SortedWithNew(list, reaction);
      assert reaction in longer;
      KeptSlice(longer);
    }
  }

  lemma {:induction false} EmptyExactlyWhenNoPairs(reactions: map<string, Value>)
    requires Kept(reactions)
    ensures reactions == map[] <==> Pairs(reactions) == {}
  {
    if a :| a in reactions {
      var s :| s != [] && StrictlySorted(s) && reactions[a] == AnySlice(s);
      SliceOfSlice(s);
      assert (a, s[0]) in Pairs(reactions);
    }
  }

  // ----- The maps themselves: cloned and replaced, never written through -----

  class MetaMap {
    var m: map<string, Cell>

    constructor (m0: map<string, Cell>)
      ensures m == m0
    {
      m := m0;
    }

    // The map that m["reactions"] points to, if it is one.
    function Nested(): set<MetaMap>
      reads this
    {
      if "reactions" in m && m["reactions"].Ref? then {m["reactions"].to} else {}
    }

    ghost predicate Shallow()
      reads this, Nested()
    {
      forall r | r in Nested() :: r != this && forall k | k in r.m :: r.m[k].Plain?
    }

    ghost function NestedReactions(): map<string, Value>
      requires Shallow()
      reads this, Nested()
    {
      if Nested() == {} then map[] else Values(m["reactions"].to.m)
    }

    // A decoded entry's metadata: the reactions are the only nested map held by address.
    ghost predicate Tidy()
      reads this, Nested()
    {
      Shallow() && OneNested(m)
    }

    // The metadata as a value.
    ghost function Contents(): Meta
      requires Tidy()
      reads this, Nested()
    {
      Flat(m, NestedReactions())
    }
  }

  // A value, or the address of a nested map of values.
  datatype Cell = Plain(value: Value) | Ref(to: MetaMap)

  function Values(m: map<string, Cell>): map<string, Value>
    requires forall k | k in m :: m[k].Plain?
  {
    map k | k in m :: m[k].value
  }

  predicate OneNested(m: map<string, Cell>)
  {
    && (forall k | k in m && m[k].Ref? :: k == "reactions")
    && ("reactions" in m && m["reactions"].Plain? ==> !m["reactions"].value.Obj?)
  }

  function Flat(m: map<string, Cell>, nested: map<string, Value>): Meta
  {
    map k | k in m :: if m[k].Plain? then m[k].value else Obj(nested)
  }

  // Two maps that differ in their reactions only.
  lemma {:induction false} FlatReactions(m: map<string, Cell>, was: map<string, Value>)
    requires OneNested(m) && (!("reactions" in m && m["reactions"].Ref?) ==> was == map[])
    ensures Reactions(Flat(m, was)) == was
  {
  }

  lemma {:induction false} FlatAfter(m: map<string, Cell>, was: map<string, Value>, m': map<string, Cell>,
                                     now: map<string, Value>)
    requires OneNested(m) && m' - {"reactions"} == m - {"reactions"}
    requires if now == map[] then "reactions" !in m' else "reactions" in m' && m'["reactions"].Ref?
    ensures Flat(m', now) == WithReactions(Flat(m, was), now)
  {
    forall k | k != "reactions" ensures k in m' <==> k in m {
      assert k in m' - {"reactions"} <==> k in m - {"reactions"};
    }
    forall k | k != "reactions" && k in m ensures m'[k] == m[k] && m[k] == (m - {"reactions"})[k] {
      assert (m' - {"reactions"})[k] == (m - {"reactions"})[k];
    }
  }

  // cloneEntryMeta: a new top-level map that shares the nested ones.
  method CloneEntryMeta(meta: MetaMap) returns (out: MetaMap)
    ensures fresh(out) && out.m == meta.m
  {
    out := new MetaMap(meta.m);
  }

  // hasReaction, and the search for an existing reaction before one is added.
  method Contains(list: seq<string>, reaction: string) returns (found: bool)
    ensures found <==> reaction in list
  {
    for i := 0 to |list|
      invariant reaction !in list[..i]
    {
      if list[i] == reaction {
        return true;
      }
    }
    assert list[..|list|] == list;
    found := false;
  }

  method Drop(list: seq<string>, reaction: string) returns (left: seq<string>)
    ensures left == Without(list, reaction)
  {
    left := [];
    assert list[0..] == list;
    for i := 0 to |list|
      invariant left + Without(list[i..], reaction) == Without(list, reaction)
    {
      assert list[i..][1..] == list[i + 1..];
      if list[i] != reaction {
        left := left + [list[i]];
      }
    }
  }

  method NextReactions(reactions: map<string, Value>, actor: string, reaction: string, remove: bool)
    returns (next: map<string, Value>)
    ensures next == NewReactions(reactions, actor, reaction, remove)
  {
    var list := ActorList(reactions, actor);
    if remove {
      var left := Drop(list, reaction);
      next := if left == [] then reactions - {actor} else reactions[actor := AnySlice(left)];
    } else {
      var found := Contains(list, reaction);
      if !found {
        list := SortStrings(list + [reaction]);
      }
      next := reactions[actor := AnySlice(list)];
    }
  }

  // Writes the given map only: the nested map it found there is left as it was, and a
  // new one takes its place.
  method ApplyReaction(meta: MetaMap, actor: string, reaction: string, remove: bool)
    requires meta.Shallow()
    modifies meta
    ensures meta.Shallow() && fresh(meta.Nested())
    ensures meta.NestedReactions() == NewReactions(old(meta.NestedReactions()), actor, reaction, remove)
    ensures "reactions" in meta.m <==> meta.NestedReactions() != map[]
    ensures meta.m - {"reactions"} == old(meta.m) - {"reactions"}
  {
    var reactions := map[];
    if "reactions" in meta.m && meta.m["reactions"].Ref? {
      reactions := Values(meta.m["reactions"].to.m);
    }
    var next := NextReactions(reactions, actor, reaction, remove);
    StoreReactions(meta, next);
  }

  method StoreReactions(meta: MetaMap, next: map<string, Value>)
    modifies meta
    ensures meta.Shallow() && fresh(meta.Nested()) && meta.NestedReactions() == next
    ensures "reactions" in meta.m <==> next != map[]
    ensures meta.m - {"reactions"} == old(meta.m) - {"reactions"}
  {
    if next == map[] {
      meta.m := meta.m - {"reactions"};
    } else {
      var replacement := new MetaMap(map k | k in next :: Plain(next[k]));
      meta.m := meta.m["reactions" := Ref(replacement)];
      assert Values(replacement.m) == next;
    }
  }

  // What the react verb does with an entry's metadata: the original map and the map nested
  // in it are left as they were, and the copy holds the new reactions.
  method ReactOnCopy(meta: MetaMap, actor: string, reaction: string, remove: bool) returns (next: MetaMap)
    requires meta.Tidy()
    ensures fresh(next) && meta.m == old(meta.m) && forall r | r in meta.Nested() :: r.m == old(r.m)
    ensures meta.Tidy() && meta.Contents() == old(meta.Contents())
    ensures next.Tidy() && next.Contents() == Reacted(old(meta.Contents()), actor, reaction, remove)
  {
    next := CloneEntryMeta(meta);
    ghost var m, was := next.m, next.NestedReactions();
    assert meta.Contents() == Flat(m, was);
    ApplyReaction(next, actor, reaction, remove);
    ReactFlat(m, was, next.m, next.NestedReactions(), actor, reaction, remove);
  }

  lemma {:induction false} ReactFlat(m: map<string, Cell>, was: map<string, Value>, m': map<string, Cell>,
                                     now: map<string, Value>, actor: string, reaction: string, remove: bool)
    requires OneNested(m) && (!("reactions" in m && m["reactions"].Ref?) ==> was == map[])
    requires m' - {"reactions"} == m - {"reactions"} && now == NewReactions(was, actor, reaction, remove)
    requires if now == map[] then "reactions" !in m' else "reactions" in m' && m'["reactions"].Ref?
    ensures OneNested(m') && Flat(m', now) == Reacted(Flat(m, was), actor, reaction, remove)
  {
    FlatReactions(m, was);
    FlatAfter(m, was, m', now);
    KeepsOneNested(m, m');
  }

  lemma {:induction false} KeepsOneNested(m: map<string, Cell>, m': map<string, Cell>)
    requires OneNested(m) && m' - {"reactions"} == m - {"reactions"}
    requires "reactions" in m' ==> m'["reactions"].Ref?
    ensures OneNested(m')
  {
    forall k | k in m' && k != "reactions" ensures k in m && m'[k] == m[k] {
      assert k in m' - {"reactions"} && (m' - {"reactions"})[k] == (m - {"reactions"})[k];
    }
  }

  // ----- The verbs -----

  datatype Entry = Entry(role: string, text: string, unix: int, meta: Meta)

  datatype Op =
    | Edit(text: string, now: int)
    | React(actor: string, reaction: string, remove: bool, propagates: bool)
    | Delete

  // Which of the calls along the way fail.
  datatype Faults = Faults(read: bool, propagate: bool, write: bool, reread: bool)

  // DoneUnread is an error too: the entry was written, but could not be read back.
  datatype Reply = NotFound | Failed | Unchanged | Done | DoneUnread
  {
    predicate TookEffect() { Done? || DoneUnread? }
  }

  function RevisionList(meta: Meta): seq<Value>
  {
    if "revisions" in meta && meta["revisions"].Arr? then meta["revisions"].items else []
  }

  function Revision(entry: Entry, now: int): Value
  {
    Obj(map["text" := Str(entry.text), "unix" := Number(Text.Decimal(entry.unix)),
            "edited_at" := Number(Text.Decimal(now))])
  }

  function Edited(entry: Entry, text: string, now: int): Entry
  {
    var meta := entry.meta["revisions" := Arr(RevisionList(entry.meta) + [Revision(entry, now)])];
    entry.(text := text,
           meta := meta["edited_from" := Str(entry.text)]["edited_at" := Number(Text.Decimal(now))])
  }

  function ReactedEntry(entry: Entry, op: Op): Entry
    requires op.React?
  {
    var added := !op.remove && op.reaction !in ActorList(Reactions(entry.meta), op.actor);
    var meta := Reacted(entry.meta, op.actor, op.reaction, op.remove);
    entry.(meta := if added && op.propagates then meta["nostr_reaction_propagated" := Bool(true)] else meta)
  }

  // hasReaction decides whether a reaction is announced at all.
  function Step(stored: Option<Entry>, op: Op, f: Faults): (Option<Entry>, Reply)
  {
    if f.read then (stored, Failed)
    else match stored
      case None => (None, NotFound)
      case Some(entry) =>
        match op
        case Delete => if f.propagate || f.write then (stored, Failed) else (None, Done)
        case Edit(text, now) =>
          if entry.role != "user" then (stored, Failed)
          else if entry.text == text then (stored, Unchanged)
          else if f.write then (stored, Failed)
          else (Some(Edited(entry, text, now)), if f.reread then DoneUnread else Done)
        case React(actor, reaction, remove, _) =>
          if !remove && reaction !in ActorList(Reactions(entry.meta), actor) && f.propagate then (stored, Failed)
          else if f.write then (stored, Failed)
          else (Some(ReactedEntry(entry, op)), if f.reread then DoneUnread else Done)
  }

  // The stored entry, as the verbs read and replace it.
  class TranscriptEntry {
    var stored: Option<Entry>

    constructor (initial: Option<Entry>)
      ensures stored == initial
    {
      stored := initial;
    }

    method Act(op: Op, f: Faults) returns (reply: Reply)
      modifies this
      ensures (stored, reply) == Step(old(stored), op, f)
    {
      if f.read {
        return Failed;
      }
      if stored.None? {
        return NotFound;
      }
      var entry := stored.value;
      match op {
      case Delete =>
        if f.propagate || f.write {
          return Failed;
        }
        stored := None;
      case Edit(text, now) =>
        if entry.role != "user" {
          return Failed;
        }
        if entry.text == text {
          return Unchanged;
        }
        if f.write {
          return Failed;
        }
        stored := Some(Edited(entry, text, now));
      case React(actor, reaction, remove, propagates) =>
        var present := Contains(ActorList(Reactions(entry.meta), actor), reaction);
        var propagated := false;
        if !remove && !present {
          if f.propagate {
            return Failed;
          }
          propagated := propagates;
        }
        var reactions := NextReactions(Reactions(entry.meta), actor, reaction, remove);
        var meta := WithReactions(entry.meta, reactions);
        if propagated {
          meta := meta["nostr_reaction_propagated" := Bool(true)];
        }
        if f.write {
          return Failed;
        }
        stored := Some(entry.(meta := meta));
      }
      reply := if f.reread && !op.Delete? then DoneUnread else Done;
    }
  }

  // ----- Over every sequence of verbs -----

  datatype Call = Call(op: Op, faults: Faults)

  function Run(stored: Option<Entry>, calls: seq<Call>): Option<Entry>
  {
    if calls == [] then stored
    else
      var n := |calls| - 1;
      Step(Run(stored, calls[..n]), calls[n].op, calls[n].faults).0
  }

  function Succeeded(stored: Option<Entry>, calls: seq<Call>): bool
    requires calls != []
  {
    var n := |calls| - 1;
    Step(Run(stored, calls[..n]), calls[n].op, calls[n].faults).1.TookEffect()
  }

  function RevisionText(v: Value): Option<string>
  {
    if v.Obj? && "text" in v.fields && v.fields["text"].Str? then Some(v.fields["text"].s) else None
  }

  // The texts recorded as revisions, then the current one.
  function History(entry: Entry): seq<Option<string>>
  {
    var list := RevisionList(entry.meta);
    seq(|list|, i requires 0 <= i < |list| => RevisionText(list[i])) + [Some(entry.text)]
  }

  // The texts of the edits that took effect, in order.
  function EffectiveTexts(stored: Option<Entry>, calls: seq<Call>): seq<Option<string>>
  {
    if calls == [] then []
    else
      var n := |calls| - 1;
      EffectiveTexts(stored, calls[..n]) +
      if calls[n].op.Edit? && Succeeded(stored, calls) then [Some(calls[n].op.text)] else []
  }

  // The reactions as a plain set, following the same calls.
  ghost function ReactionSet(stored: Option<Entry>, calls: seq<Call>): set<(string, string)>
    requires stored.Some?
  {
    if calls == [] then Pairs(Reactions(stored.value.meta))
    else
      var n := |calls| - 1;
      var before := ReactionSet(stored, calls[..n]);
      match calls[n].op
      case React(actor, reaction, remove, _) =>
        if !Succeeded(stored, calls) then before
        else if remove then before - {(actor, reaction)} else before + {(actor, reaction)}
      case _ => before
  }

  ghost predicate KeptMeta(meta: Meta)
  {
    "reactions" in meta ==>
      meta["reactions"].Obj? && meta["reactions"].fields != map[] && Kept(meta["reactions"].fields)
  }

  lemma {:induction false} EditEffect(entry: Entry, text: string, now: int)
    ensures var e := Edited(entry, text, now);
            && History(e) == History(entry) + [Some(text)]
            && Reactions(e.meta) == Reactions(entry.meta)
            && (KeptMeta(entry.meta) ==> KeptMeta(e.meta))
            && e.role == entry.role
  {
    var e := Edited(entry, text, now);
    assert RevisionList(e.meta) == RevisionList(entry.meta) + [Revision(entry, now)];
    assert RevisionText(Revision(entry, now)) == Some(entry.text);
  }

  lemma {:induction false} WithReactionsEffect(meta: Meta, reactions: map<string, Value>, announced: bool)
    ensures var m := if announced then WithReactions(meta, reactions)["nostr_reaction_propagated" := Bool(true)]
                     else WithReactions(meta, reactions);
            && Reactions(m) == reactions
            && RevisionList(m) == RevisionList(meta)
            && (Kept(reactions) ==> KeptMeta(m))
  {
  }

  lemma {:induction false} ReactEffect(entry: Entry, op: Op)
    requires op.React?
    ensures var e, was := ReactedEntry(entry, op), Reactions(entry.meta);
            && History(e) == History(entry)
            && Pairs(Reactions(e.meta)) ==
                 (if op.remove then Pairs(was) - {(op.actor, op.reaction)} else Pairs(was) + {(op.actor, op.reaction)})
            && (KeptMeta(entry.meta) ==> KeptMeta(e.meta))
            && e.role == entry.role
  {
    var was := Reactions(entry.meta);
    var now := NewReactions(was, op.actor, op.reaction, op.remove);
    WithReactionsEffect(entry.meta, now, true);
    WithReactionsEffect(entry.meta, now, false);
    ReactionsAreASet(was, op.actor, op.reaction, op.remove);
    if KeptMeta(entry.meta) {
      ReactionsStayKept(was, op.actor, op.reaction, op.remove);
    }
  }

  // One verb, on the entry's meaning.
  lemma {:induction false} StepEffect(entry: Entry, op: Op, f: Faults)
    requires Step(Some(entry), op, f).0.Some?
    ensures var (stored, reply) := Step(Some(entry), op, f);
            var e, done := stored.value, reply.TookEffect();
            && History(e) == History(entry) + (if op.Edit? && done then [Some(op.text)] else [])
            && Pairs(Reactions(e.meta)) ==
                 (if !(op.React? && done) then Pairs(Reactions(entry.meta))
                  else if op.remove then Pairs(Reactions(entry.meta)) - {(op.actor, op.reaction)}
                  else Pairs(Reactions(entry.meta)) + {(op.actor, op.reaction)})
            && (KeptMeta(entry.meta) ==> KeptMeta(e.meta))
            && e.role == entry.role
  {
    assert History(entry) + [] == History(entry);
    if op.Edit? {
      EditEffect(entry, op.text, op.now);
    } else if op.React? {
      ReactEffect(entry, op);
    }
  }

  // No text is lost, and the stored reactions are the set of pairs, after every run.
  lemma {:induction false} RunRefines(stored: Option<Entry>, calls: seq<Call>)
    requires stored.Some? && Run(stored, calls).Some?
    ensures var e := Run(stored, calls).value;
            && History(e) == History(stored.value) + EffectiveTexts(stored, calls)
            && Pairs(Reactions(e.meta)) == ReactionSet(stored, calls)
            && (KeptMeta(stored.value.meta) ==> KeptMeta(e.meta))
            && e.role == stored.value.role
  {
    if calls == [] {
      assert History(stored.value) + [] == History(stored.value);
    } else {
      var n := |calls| - 1;
      RunRefines(stored, calls[..n]);
      StepEffect(Run(stored, calls[..n]).value, calls[n].op, calls[n].faults);
    }
  }

  // With well-kept metadata, the key is there exactly when somebody has a reaction.
  lemma {:induction false} KeyPresentIffReactions(meta: Meta)
    requires KeptMeta(meta)
    ensures "reactions" in meta <==> Pairs(Reactions(meta)) != {}
  {
    EmptyExactlyWhenNoPairs(Reactions(meta));
  }

  // A deleted entry is never brought back.
  lemma {:induction false} DeletedStaysDeleted(stored: Option<Entry>, calls: seq<Call>, n: nat)
    requires n <= |calls| && Run(stored, calls[..n]).None?
    ensures Run(stored, calls).None?
    decreases |calls|
  {
    if n < |calls| {
      var m := |calls| - 1;
      assert calls[..m][..n] == calls[..n];
      DeletedStaysDeleted(stored, calls[..m], n);
    } else {
      assert calls[..n] == calls;
    }
  }
}
