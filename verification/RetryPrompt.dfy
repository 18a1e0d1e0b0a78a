// cmd/metiqd/control_rpc_message.go: resolveRetryPrompt.
//
// Parent links come from stored entries and may dangle or form a cycle.
module RetryPrompt {
  import opened Wrappers

  datatype Entry = Entry(role: string, text: string, parent: string)

  type Repo = map<string, Entry>

  // The entry n links above `id`, following parents without any bound or guard.
  function Ancestor(repo: Repo, id: string, n: nat): (a: Option<string>)
    ensures a.Some? ==> a.value in repo
    decreases n
  {
    if id == "" || id !in repo then None
    else if n == 0 then Some(id)
    else Ancestor(repo, repo[id].parent, n - 1)
  }

  ghost predicate UserAt(repo: Repo, id: string, n: nat)
  {
    Ancestor(repo, id, n).Some? && repo[Ancestor(repo, id, n).value].role == "user"
  }

  ghost predicate Nearest(repo: Repo, id: string, n: nat)
  {
    UserAt(repo, id, n) && forall m: nat | m < n :: !UserAt(repo, id, m)
  }

  lemma {:induction false} AncestorOnce(repo: Repo, id: string, m: nat, n: nat)
    ensures Ancestor(repo, id, m + n) ==
            if Ancestor(repo, id, m).None? then None else Ancestor(repo, Ancestor(repo, id, m).value, n)
    decreases m
  {
    if m > 0 && id != "" && id in repo {
      AncestorOnce(repo, repo[id].parent, m - 1, n);
    }
  }

  lemma {:induction false} ParentIsNext(repo: Repo, id: string, n: nat)
    requires Ancestor(repo, id, n).Some?
    ensures Ancestor(repo, id, n + 1) == Ancestor(repo, repo[Ancestor(repo, id, n).value].parent, 0)
    decreases n
  {
    if n > 0 { ParentIsNext(repo, repo[id].parent, n - 1); }
  }

  // Ancestor m comes round again after n >= m: the chain repeats, so everything further
  // up was already met.
  lemma {:induction false} CycleRepeats(repo: Repo, id: string, m: nat, n: nat, k: nat) returns (j: nat)
    requires m < n && Ancestor(repo, id, m).Some? && Ancestor(repo, id, n) == Ancestor(repo, id, m)
    ensures j < n && Ancestor(repo, id, k) == Ancestor(repo, id, j)
    decreases k
  {
    if k < n {
      j := k;
    } else {
      var shorter := k - (n - m);
      AncestorOnce(repo, id, n, k - n);
      AncestorOnce(repo, id, m, k - n);
      assert m + (k - n) == shorter && n + (k - n) == k;
      j := CycleRepeats(repo, id, m, n, shorter);
    }
  }

  lemma {:induction false} ChainEnds(repo: Repo, id: string, n: nat, k: nat)
    requires Ancestor(repo, id, n).None? && n <= k
    ensures Ancestor(repo, id, k).None?
  {
    AncestorOnce(repo, id, n, k - n);
  }

  // The walk terminates on every parent graph, and answers as the unbounded chain would:
  // the text of the nearest user entry, or the entry's own when there is none.
  method ResolveRetryPrompt(repo: Repo, id: string) returns (prompt: string)
    requires id != "" && id in repo
    ensures forall n: nat | Nearest(repo, id, n) :: prompt == repo[Ancestor(repo, id, n).value].text
    ensures (forall n: nat :: !UserAt(repo, id, n)) ==> prompt == repo[id].text
    ensures (exists n: nat :: Nearest(repo, id, n)) || (forall n: nat :: !UserAt(repo, id, n))
  {
    var entry := repo[id];
    if entry.role == "user" {
      assert Nearest(repo, id, 0);
      return entry.text;
    }
    var seen := {id};
    var parentID := entry.parent;
    ghost var n: nat := 0;   // the last ancestor visited
    while parentID != ""
      invariant Visited(repo, id, n, seen)
      invariant parentID == repo[Ancestor(repo, id, n).value].parent
      decreases repo.Keys - seen, parentID != ""
    {
      ParentIsNext(repo, id, n);
      if parentID in seen {
        RepeatEndsSearch(repo, id, n, seen, parentID);
        return entry.text;
      }
      if parentID !in repo {
        MissingEndsSearch(repo, id, n, seen);
        return entry.text;
      }
      seen := seen + {parentID};
      var parent := repo[parentID];
      if parent.role == "user" {
        FoundIsNearest(repo, id, n, seen - {parentID});
        return parent.text;
      }
      VisitedGrows(repo, id, n, seen - {parentID}, parentID);
      assert seen - {parentID} + {parentID} == seen;
      n := n + 1;
      parentID := parent.parent;
    }
    ParentIsNext(repo, id, n);
    MissingEndsSearch(repo, id, n, seen);
    prompt := entry.text;
  }

  // Ancestors 0..n exist, none is a user's, and they are exactly the ones seen.
  ghost predicate Visited(repo: Repo, id: string, n: nat, seen: set<string>)
  {
    && (forall m: nat | m <= n :: Ancestor(repo, id, m).Some? && Ancestor(repo, id, m).value in seen
                                  && !UserAt(repo, id, m))
    && (forall x | x in seen :: x in repo && exists m: nat :: m <= n && Ancestor(repo, id, m) == Some(x))
  }

  lemma VisitedGrows(repo: Repo, id: string, n: nat, seen: set<string>, next: string)
    requires Visited(repo, id, n, seen) && Ancestor(repo, id, n + 1) == Some(next)
    requires next in repo && repo[next].role != "user"
    ensures Visited(repo, id, n + 1, seen + {next})
  {
    forall x | x in seen + {next}
      ensures x in repo && exists m: nat :: m <= n + 1 && Ancestor(repo, id, m) == Some(x)
    {
      if x in seen {
        var m: nat :| m <= n && Ancestor(repo, id, m) == Some(x);
      }
    }
  }

  lemma FoundIsNearest(repo: Repo, id: string, n: nat, seen: set<string>)
    requires Visited(repo, id, n, seen) && UserAt(repo, id, n + 1)
    ensures Nearest(repo, id, n + 1)
    ensures forall k: nat | Nearest(repo, id, k) :: k == n + 1
  {
  }

  lemma MissingEndsSearch(repo: Repo, id: string, n: nat, seen: set<string>)
    requires Visited(repo, id, n, seen) && Ancestor(repo, id, n + 1).None?
    ensures forall k: nat :: !UserAt(repo, id, k)
  {
    forall k: nat ensures !UserAt(repo, id, k) {
      if k > n { ChainEnds(repo, id, n + 1, k); }
    }
  }

  lemma RepeatEndsSearch(repo: Repo, id: string, n: nat, seen: set<string>, again: string)
    requires Visited(repo, id, n, seen) && Ancestor(repo, id, n + 1) == Some(again) && again in seen
    ensures forall k: nat :: !UserAt(repo, id, k)
  {
    var m: nat :| m <= n && Ancestor(repo, id, m) == Some(again);
    forall k: nat ensures !UserAt(repo, id, k) {
      var j := CycleRepeats(repo, id, m, n + 1, k);
    }
  }
}
