// cmd/metiqd/control_rpc_message.go: when each verb of message.action takes effect on an
// entry, and what it leaves there, on the entry and the calls that fail alone.
module MessageVerbs {
  import opened Wrappers
  import opened Json
  import opened MessageEntry
  import Text

  // ----- When a verb takes effect -----

  predicate DeleteGoesThrough(f: Faults) { !f.read && !f.propagate && !f.write }

  predicate EditGoesThrough(entry: Entry, text: string, f: Faults)
  {
    !f.read && !f.write && entry.role == "user" && entry.text != text
  }

  // The actor does not have the reaction yet.
  ghost predicate IsNew(entry: Entry, actor: string, reaction: string)
  {
    (actor, reaction) !in Pairs(Reactions(entry.meta))
  }

  // Only a new reaction is propagated.
  ghost predicate ReactGoesThrough(entry: Entry, actor: string, reaction: string, remove: bool, f: Faults)
  {
    !f.read && !f.write && (!remove && IsNew(entry, actor, reaction) ==> !f.propagate)
  }

  // A delete leaves nothing behind exactly when none of its calls fails, and otherwise
  // everything.
  lemma {:induction false} DeleteDeletes(entry: Entry, f: Faults)
    ensures Step(Some(entry), Delete, f) == if DeleteGoesThrough(f) then (None, Done) else (Some(entry), Failed)
  {
  }

  // An edit takes effect exactly on a user's entry with another text, when no call fails;
  // an edit to the same text is no error.
  lemma {:induction false} EditEdits(entry: Entry, text: string, now: int, f: Faults)
    ensures var (stored, reply) := Step(Some(entry), Edit(text, now), f);
            if EditGoesThrough(entry, text, f)
            then stored.Some? && stored.value.text == text && reply == if f.reread then DoneUnread else Done
            else stored == Some(entry) && reply == if !f.read && entry.role == "user" && entry.text == text
                                                   then Unchanged else Failed
  {
  }

  // A reaction takes effect exactly when no call that is made for it fails.
  lemma {:induction false} ReactReacts(entry: Entry, actor: string, reaction: string, remove: bool, propagates: bool,
                                       f: Faults)
    ensures var (stored, reply) := Step(Some(entry), React(actor, reaction, remove, propagates), f);
            if ReactGoesThrough(entry, actor, reaction, remove, f)
            then && stored.Some? && reply == (if f.reread then DoneUnread else Done)
                 && ((actor, reaction) in Pairs(Reactions(stored.value.meta)) <==> !remove)
            else stored == Some(entry) && reply == Failed
  {
    PairsByList(Reactions(entry.meta), actor, reaction);
    if ReactGoesThrough(entry, actor, reaction, remove, f) {
      ReactEffect(entry, React(actor, reaction, remove, propagates));
    }
  }

  // A missing entry stays missing.
  lemma {:induction false} MissingStaysMissing(op: Op, f: Faults)
    ensures Step(None, op, f) == (None, if f.read then Failed else NotFound)
  {
  }

  // ----- What it leaves -----

  // Nothing outside these keys differs.
  predicate SameBut(keys: set<string>, m: Meta, m': Meta)
  {
    m - keys == m' - keys
  }

  // An edit records the text it replaces, when that was written and when it was replaced;
  // role, time and every other key stay.
  lemma {:induction false} EditLeaves(entry: Entry, text: string, now: int, f: Faults)
    requires EditGoesThrough(entry, text, f)
    ensures var e := Step(Some(entry), Edit(text, now), f).0.value;
            var when := Number(Text.Decimal(now));
            && e.role == entry.role && e.unix == entry.unix
            && SameBut({"revisions", "edited_from", "edited_at"}, entry.meta, e.meta)
            && "edited_from" in e.meta && e.meta["edited_from"] == Str(entry.text)
            && "edited_at" in e.meta && e.meta["edited_at"] == when
            && "revisions" in e.meta && e.meta["revisions"].Arr?
            && var before, after := RevisionList(entry.meta), e.meta["revisions"].items;
               && |after| == |before| + 1 && after[..|before|] == before
               && IsRevision(after[|before|], entry.text, Number(Text.Decimal(entry.unix)), when)
  {
  }

  predicate IsRevision(v: Value, text: string, unix: Value, editedAt: Value)
  {
    && v.Obj? && v.fields.Keys == {"text", "unix", "edited_at"}
    && v.fields["text"] == Str(text) && v.fields["unix"] == unix && v.fields["edited_at"] == editedAt
  }

  // A reaction leaves text, role and time, and every key but its own; it is marked as
  // propagated exactly when it is new and went out.
  lemma {:induction false} ReactLeaves(entry: Entry, actor: string, reaction: string, remove: bool, propagates: bool,
                                       f: Faults)
    requires ReactGoesThrough(entry, actor, reaction, remove, f)
    ensures var e := Step(Some(entry), React(actor, reaction, remove, propagates), f).0.value;
            && e.text == entry.text && e.role == entry.role && e.unix == entry.unix
            && SameBut({"reactions", "nostr_reaction_propagated"}, entry.meta, e.meta)
            && (if !remove && IsNew(entry, actor, reaction) && propagates
                then "nostr_reaction_propagated" in e.meta && e.meta["nostr_reaction_propagated"] == Bool(true)
                else MarkOf(e.meta) == MarkOf(entry.meta))
  {
    PairsByList(Reactions(entry.meta), actor, reaction);
  }

  function MarkOf(m: Meta): Option<Value>
  {
    if "nostr_reaction_propagated" in m then Some(m["nostr_reaction_propagated"]) else None
  }

  // ----- Over runs -----

  // After any sequence of verbs the entry is gone if and only if some delete went through.
  lemma {:induction false} GoneIffDeleted(entry: Entry, calls: seq<Call>)
    ensures Run(Some(entry), calls).None? <==>
            exists k | 0 <= k < |calls| :: calls[k].op.Delete? && DeleteGoesThrough(calls[k].faults)
  {
    if calls != [] {
      var n := |calls| - 1;
      GoneIffDeleted(entry, calls[..n]);
      var before, last := Run(Some(entry), calls[..n]), calls[n];
      assert Run(Some(entry), calls) == Step(before, last.op, last.faults).0;
      if before.None? {
        MissingStaysMissing(last.op, last.faults);
      } else {
        OnlyDeleteDeletes(before.value, last.op, last.faults);
      }
    }
  }

  lemma {:induction false} OnlyDeleteDeletes(entry: Entry, op: Op, f: Faults)
    ensures Step(Some(entry), op, f).0.None? <==> op.Delete? && DeleteGoesThrough(f)
  {
  }
}
