/** Grouping a change's comments into reply threads. */
module GerritThreads {
  import opened Common
  import opened Sorting

  datatype Comment = Comment(id: string, inReplyTo: string, line: int, unresolved: bool, updated: string)

  type Index = map<string, Comment>

  /** The comment a reply answers, if it is present. */
  function Parent(byID: Index, c: Comment): (p: seq<Comment>)
    ensures |p| <= 1
  {
    if c.inReplyTo != "" && c.inReplyTo in byID then [byID[c.inReplyTo]] else []
  }

  function AllIds(byID: Index): set<string> { set k | k in byID :: byID[k].id }

  /** The walk up the replies, stopping at the first id met twice. */
  function Walk(byID: Index, c: Comment, seen: set<string>): string
    decreases |({c.id} + AllIds(byID)) - seen|
  {
    if Parent(byID, c) == [] || c.id in seen then c.id
    else
      var p := Parent(byID, c)[0];
      WalkShrinks(byID, c, p, seen);
      Walk(byID, p, seen + {c.id})
  }

  lemma WalkShrinks(byID: Index, c: Comment, p: Comment, seen: set<string>)
    requires c.id !in seen && Parent(byID, c) == [p]
    ensures |({p.id} + AllIds(byID)) - (seen + {c.id})| < |({c.id} + AllIds(byID)) - seen|
  {
    var before, after := ({c.id} + AllIds(byID)) - seen, ({p.id} + AllIds(byID)) - (seen + {c.id});
    assert p.id in AllIds(byID);
    assert after <= before - {c.id};
    SubsetSize(after, before - {c.id});
  }

  function Root(byID: Index, c: Comment): string { Walk(byID, c, {}) }

  /** Terminates on every reply graph, cyclic ones included: each turn marks one more id. */
  method GerritRoot(c: Comment, byID: Index) returns (root: string)
    ensures root == Root(byID, c)
  {
    var seen: set<string>, cur := {}, c;
    while cur.inReplyTo != "" && cur.id !in seen
      invariant Walk(byID, cur, seen) == Root(byID, c)
      decreases |({cur.id} + AllIds(byID)) - seen|
    {
      ghost var before := seen;
      seen := seen + {cur.id};
      if cur.inReplyTo !in byID {
        assert Parent(byID, cur) == [];
        break;
      }
      WalkShrinks(byID, cur, byID[cur.inReplyTo], before);
      cur := byID[cur.inReplyTo];
    }
    root := cur.id;
  }

  // ---- who shares a root ----

  /** Comments are filed under their own id. */
  ghost predicate Filed(byID: Index) { forall k | k in byID :: byID[k].id == k }

  /** `d` is `n` replies above `c`. */
  ghost predicate Above(byID: Index, c: Comment, d: Comment, n: nat)
    decreases n
  {
    if n == 0 then c == d else Parent(byID, c) != [] && Above(byID, Parent(byID, c)[0], d, n - 1)
  }

  /** Following the replies from `c` leads back to `c`. */
  ghost predicate OnCycle(byID: Index, c: Comment) { exists n: nat :: n > 0 && Above(byID, c, c, n) }

  lemma {:induction false} AboveTrans(byID: Index, a: Comment, b: Comment, c: Comment, m: nat, n: nat)
    requires Above(byID, a, b, m) && Above(byID, b, c, n)
    ensures Above(byID, a, c, m + n)
    decreases m
  {
    if m > 0 { AboveTrans(byID, Parent(byID, a)[0], b, c, m - 1, n); }
  }

  /** A fact about the walk is not affected by marking an id the walk never meets. */
  lemma {:induction false} UnmetMark(byID: Index, c: Comment, seen: set<string>, x: Comment)
    requires Filed(byID) && x.id in byID && byID[x.id] == x && c.id in byID && byID[c.id] == c
    requires forall n: nat :: !Above(byID, c, x, n)
    ensures Walk(byID, c, seen + {x.id}) == Walk(byID, c, seen)
    decreases |({c.id} + AllIds(byID)) - seen|
  {
    assert !Above(byID, c, x, 0);
    assert c.id != x.id;
    if Parent(byID, c) != [] && c.id !in seen {
      var p := Parent(byID, c)[0];
      forall n: nat ensures !Above(byID, p, x, n) { assert !Above(byID, c, x, n + 1); }
      WalkShrinks(byID, c, p, seen);
      UnmetMark(byID, p, seen + {c.id}, x);
      assert (seen + {c.id}) + {x.id} == (seen + {x.id}) + {c.id};
    }
  }

  /** The walk from `c` reaches the marked `x` first. */
  lemma {:induction false} WalkReaches(byID: Index, c: Comment, seen: set<string>, x: Comment, n: nat)
    requires Filed(byID) && Above(byID, c, x, n) && x.id in seen
    requires forall d, i: nat | i < n && Above(byID, c, d, i) :: d.id !in seen
    requires forall d, i: nat, j: nat | i < j < n && Above(byID, c, d, i) :: !Above(byID, c, d, j)
    requires forall d, i: nat | i < n && Above(byID, c, d, i) :: d.id in byID && byID[d.id] == d
    ensures Walk(byID, c, seen) == x.id
    decreases n
  {
    if n > 0 {
      assert Above(byID, c, c, 0);
      var p := Parent(byID, c)[0];
      forall d, i: nat | i < n - 1 && Above(byID, p, d, i)
        ensures d.id !in seen + {c.id} && d.id in byID && byID[d.id] == d
      {
        assert Above(byID, c, d, i + 1);
        assert d.id == c.id ==> d == c;
      }
      forall d, i: nat, j: nat | i < j < n - 1 && Above(byID, p, d, i) ensures !Above(byID, p, d, j) {
        assert Above(byID, c, d, i + 1);
        assert !Above(byID, c, d, j + 1);
      }
      WalkReaches(byID, p, seen + {c.id}, x, n - 1);
    }
  }

  /** The shortest way round the cycle meets no comment twice. */
  lemma {:induction false} ShortestRound(byID: Index, p: Comment, c: Comment, n: nat) returns (m: nat)
    requires Above(byID, p, c, n)
    ensures m <= n && Above(byID, p, c, m)
    ensures forall k: nat | k < m :: !Above(byID, p, c, k)
  {
    m := n;
    if k: nat :| k < n && Above(byID, p, c, k) {
      m := ShortestRound(byID, p, c, k);
    }
  }

  /** What is `j` above is `j - i` above what is `i` above. */
  lemma {:induction false} AboveSplit(byID: Index, a: Comment, d: Comment, x: Comment, i: nat, j: nat)
    requires i <= j && Above(byID, a, d, i) && Above(byID, a, x, j)
    ensures Above(byID, d, x, j - i)
    decreases i
  {
    if i > 0 { AboveSplit(byID, Parent(byID, a)[0], d, x, i - 1, j - 1); }
  }

  lemma NoRepeat(byID: Index, p: Comment, c: Comment, m: nat, d: Comment, i: nat, j: nat)
    requires Above(byID, p, c, m) && (forall k: nat | k < m :: !Above(byID, p, c, k))
    requires i < j < m && Above(byID, p, d, i)
    ensures !Above(byID, p, d, j)
  {
    if Above(byID, p, d, j) {
      AboveSplit(byID, p, d, c, j, m);
      AboveTrans(byID, p, d, c, i, m - j);
    }
  }

  lemma {:induction false} AboveFiled(byID: Index, c: Comment, d: Comment, n: nat)
    requires Filed(byID) && Above(byID, c, d, n) && c.id in byID && byID[c.id] == c
    ensures d.id in byID && byID[d.id] == d
    decreases n
  {
    if n > 0 { AboveFiled(byID, Parent(byID, c)[0], d, n - 1); }
  }

  /** On a cycle every comment is its own root. */
  lemma CycleRoots(byID: Index, c: Comment)
    requires Filed(byID) && c.id in byID && byID[c.id] == c && OnCycle(byID, c)
    ensures Root(byID, c) == c.id
  {
    var n: nat :| n > 0 && Above(byID, c, c, n);
    var p := Parent(byID, c)[0];
    assert Above(byID, p, c, n - 1);
    var m := ShortestRound(byID, p, c, n - 1);
    forall d, i: nat | i < m && Above(byID, p, d, i) ensures d.id !in {c.id} && d.id in byID && byID[d.id] == d {
      AboveFiled(byID, p, d, i);
    }
    forall d, i: nat, j: nat | i < j < m && Above(byID, p, d, i) ensures !Above(byID, p, d, j) {
      NoRepeat(byID, p, c, m, d, i, j);
    }
    WalkReaches(byID, p, {c.id}, c, m);
    assert {} + {c.id} == {c.id};
  }

  /** A reply and the comment it answers fall into the same thread exactly when the reply does not
      lie on a cycle of replies, or answers itself. In particular they do on every acyclic graph. */
  lemma ParentSharesRoot(byID: Index, c: Comment)
    requires Filed(byID) && c.id in byID && byID[c.id] == c && Parent(byID, c) != []
    ensures Root(byID, c) == Root(byID, Parent(byID, c)[0]) <==>
            !OnCycle(byID, c) || Parent(byID, c)[0] == c
  {
    var p := Parent(byID, c)[0];
    assert Above(byID, c, p, 1) by { assert Above(byID, p, p, 0); }
    if OnCycle(byID, c) {
      CycleRoots(byID, c);
      var n: nat :| n > 0 && Above(byID, c, c, n);
      assert Above(byID, p, c, n - 1);
      AboveTrans(byID, p, c, p, n - 1, 1);
      assert Above(byID, p, p, n);
      CycleRoots(byID, p);
    } else {
      forall n: nat ensures !Above(byID, p, c, n) { assert !Above(byID, c, c, n + 1); }
      UnmetMark(byID, p, {}, c);
      assert {} + {c.id} == {c.id};
    }
  }

  /** The walk stops at `d`, `n` replies above `c`: the first ancestor that answers nothing present or lies
      on a cycle. */
  ghost predicate Ends(byID: Index, c: Comment, d: Comment, n: nat) {
    && Above(byID, c, d, n) && (Parent(byID, d) == [] || OnCycle(byID, d))
    && forall e, m: nat | m < n && Above(byID, c, e, m) :: Parent(byID, e) != [] && !OnCycle(byID, e)
  }

  lemma EndsAbove(byID: Index, c: Comment, p: Comment, d: Comment, n: nat)
    requires Parent(byID, c) == [p] && !OnCycle(byID, c) && Ends(byID, p, d, n)
    ensures Ends(byID, c, d, n + 1)
  {
    forall e, m: nat | m < n + 1 && Above(byID, c, e, m) ensures Parent(byID, e) != [] && !OnCycle(byID, e) {
      if m > 0 { assert Above(byID, p, e, m - 1); }
    }
  }

  /** `c` lies above everything in `below`. */
  ghost predicate AboveAll(byID: Index, below: set<string>, c: Comment) {
    forall k | k in below :: k in byID && exists n: nat :: n > 0 && Above(byID, byID[k], c, n)
  }

  lemma AboveAllNext(byID: Index, below: set<string>, c: Comment, p: Comment)
    requires AboveAll(byID, below, c) && c.id in byID && byID[c.id] == c && Parent(byID, c) == [p]
    ensures AboveAll(byID, below + {c.id}, p)
  {
    assert Above(byID, c, p, 1) by { assert Above(byID, p, p, 0); }
    forall k | k in below + {c.id} ensures k in byID && exists n: nat :: n > 0 && Above(byID, byID[k], p, n) {
      if k != c.id {
        var n: nat :| n > 0 && Above(byID, byID[k], c, n);
        AboveTrans(byID, byID[k], c, p, n, 1);
      }
    }
  }

  lemma {:induction false} WalkEnds(byID: Index, c: Comment, below: set<string>) returns (d: Comment, n: nat)
    requires Filed(byID) && c.id in byID && byID[c.id] == c && AboveAll(byID, below, c)
    ensures Ends(byID, c, d, n) && d.id == Root(byID, c)
    decreases |byID.Keys - below|
  {
    if Parent(byID, c) == [] {
      d, n := c, 0;
    } else if OnCycle(byID, c) {
      CycleRoots(byID, c);
      d, n := c, 0;
    } else {
      var p := Parent(byID, c)[0];
      assert c.id !in below;
      AboveAllNext(byID, below, c, p);
      SubsetSize(byID.Keys - (below + {c.id}), (byID.Keys - below) - {c.id});
      d, n := WalkEnds(byID, p, below + {c.id});
      ParentSharesRoot(byID, c);
      EndsAbove(byID, c, p, d, n);
      n := n + 1;
    }
  }

  /** The root of a comment is the first of its ancestors, itself included, that answers nothing present or
      lies on a cycle of replies. */
  lemma RootMeaning(byID: Index, c: Comment)
    requires Filed(byID) && c.id in byID && byID[c.id] == c
    ensures exists d, n: nat :: Ends(byID, c, d, n) && d.id == Root(byID, c)
  {
    var d, n := WalkEnds(byID, c, {});
  }

  // ---- grouping ----

  /** Later comments with the same id replace earlier ones. */
  function IndexOf(comments: seq<Comment>): (byID: Index)
    ensures Filed(byID)
    ensures forall c | c in comments :: c.id in byID
  {
    if comments == [] then map[]
    else
      var last := comments[|comments| - 1];
      assert comments == comments[..|comments| - 1] + [last];
      IndexOf(comments[..|comments| - 1])[last.id := last]
  }

  /** The index holds the last comment listed under an id. */
  lemma {:induction false} IndexIsLast(comments: seq<Comment>, i: nat)
    requires i < |comments| && forall j | i < j < |comments| :: comments[j].id != comments[i].id
    ensures IndexOf(comments)[comments[i].id] == comments[i]
    decreases |comments|
  {
    assert comments[i] in comments;
    if i < |comments| - 1 {
      var front := comments[..|comments| - 1];
      assert front[i] == comments[i] && front[i] in front;
      IndexIsLast(front, i);
    }
  }

  /** The comments with the given root, in order. */
  function Group(comments: seq<Comment>, byID: Index, root: string): seq<Comment> {
    if comments == [] then []
    else
      var front, last := Group(comments[..|comments| - 1], byID, root), comments[|comments| - 1];
      if Root(byID, last) == root then front + [last] else front
  }

  /** The groups partition the comments: each comment is in its root's group as often as it was
      listed, and in no other. */
  lemma {:induction false} GroupsPartition(comments: seq<Comment>, byID: Index, root: string)
    ensures forall c :: multiset(Group(comments, byID, root))[c] ==
                        if Root(byID, c) == root then multiset(comments)[c] else 0
    ensures forall c :: c in Group(comments, byID, root) <==> c in comments && Root(byID, c) == root
    decreases |comments|
  {
    if comments != [] {
      GroupsPartition(comments[..|comments| - 1], byID, root);
      assert comments == comments[..|comments| - 1] + [comments[|comments| - 1]];
    }
  }

  // ---- the open threads ----

  datatype Thread = Thread(rootID: string, path: string, line: int, latestID: string, comments: seq<Comment>)

  predicate Earlier(a: Comment, b: Comment) { StrLess(a.updated, b.updated) }

  predicate RootBefore(a: Thread, b: Thread) { StrLess(a.rootID, b.rootID) }

  lemma OrdersCompare()
    ensures Comparator(Earlier) && Comparator(RootBefore)
  {
    StrComparator();
  }

  /** No comment of the group is newer. */
  ghost predicate Newest(g: seq<Comment>, c: Comment) { c in g && forall d | d in g :: !Earlier(c, d) }

  /** `t` reports the group of `root`: all of its comments by time, the newest one unresolved. */
  ghost predicate Reports(t: Thread, path: string, comments: seq<Comment>) {
    var byID := IndexOf(comments);
    && t.path == path && t.rootID in byID && t.line == byID[t.rootID].line
    && t.comments != [] && multiset(t.comments) == multiset(Group(comments, byID, t.rootID))
    && Sorted(t.comments, Earlier)
    && var latest := t.comments[|t.comments| - 1];
       t.latestID == latest.id && latest.unresolved && Newest(t.comments, latest)
  }

  /** The group's newest comment (one of them, should several share its time) is resolved. */
  ghost predicate Settled(comments: seq<Comment>, root: string) {
    exists c :: Newest(Group(comments, IndexOf(comments), root), c) && !c.unresolved
  }

  ghost predicate Reported(out: seq<Thread>, path: string, root: string) {
    exists i :: 0 <= i < |out| && out[i].path == path && out[i].rootID == root
  }

  /** The open threads of one path. */
  ghost predicate PathThreads(path: string, comments: seq<Comment>, out: seq<Thread>) {
    && (forall t | t in out :: Reports(t, path, comments))
    && (forall i, j | 0 <= i < j < |out| :: out[i].rootID != out[j].rootID)
    && (forall root | Group(comments, IndexOf(comments), root) != [] ::
          Reported(out, path, root) || Settled(comments, root))
  }

  lemma {:induction false} WalkIndexed(byID: Index, c: Comment, seen: set<string>)
    requires Filed(byID) && c.id in byID
    ensures Walk(byID, c, seen) in byID
    decreases |({c.id} + AllIds(byID)) - seen|
  {
    if Parent(byID, c) != [] && c.id !in seen {
      WalkShrinks(byID, c, Parent(byID, c)[0], seen);
      WalkIndexed(byID, Parent(byID, c)[0], seen + {c.id});
    }
  }

  lemma {:induction false} GroupIndexed(comments: seq<Comment>, root: string)
    requires Group(comments, IndexOf(comments), root) != []
    ensures root in IndexOf(comments)
  {
    var byID := IndexOf(comments);
    GroupsPartition(comments, byID, root);
    var c := Group(comments, byID, root)[0];
    WalkIndexed(byID, c, {});
  }

  lemma LastIsNewest(g: seq<Comment>, sorted: seq<Comment>)
    requires g != [] && multiset(sorted) == multiset(g) && Sorted(sorted, Earlier)
    ensures sorted != [] && Newest(g, sorted[|sorted| - 1]) && Newest(sorted, sorted[|sorted| - 1])
  {
    assert g[0] in multiset(sorted);
    var last := sorted[|sorted| - 1];
    OrdersCompare();
    forall d | d in sorted ensures !Earlier(last, d) {
      var i :| 0 <= i < |sorted| && sorted[i] == d;
    }
    SameMembers(g, sorted);
  }

  method IndexComments(comments: seq<Comment>) returns (byID: Index)
    ensures byID == IndexOf(comments)
  {
    byID := map[];
    for i := 0 to |comments|
      invariant byID == IndexOf(comments[..i])
    {
      assert comments[..i + 1][..i] == comments[..i];
      byID := byID[comments[i].id := comments[i]];
    }
    assert comments[..|comments|] == comments;
  }

  method GroupComments(comments: seq<Comment>, byID: Index) returns (groups: map<string, seq<Comment>>)
    ensures forall root :: root in groups <==> Group(comments, byID, root) != []
    ensures forall root | root in groups :: groups[root] == Group(comments, byID, root)
  {
    groups := map[];
    for i := 0 to |comments|
      invariant forall root :: root in groups <==> Group(comments[..i], byID, root) != []
      invariant forall root | root in groups :: groups[root] == Group(comments[..i], byID, root)
    {
      assert comments[..i + 1][..i] == comments[..i];
      var root := GerritRoot(comments[i], byID);
      var group := if root in groups then groups[root] else [];
      groups := groups[root := group + [comments[i]]];
    }
    assert comments[..|comments|] == comments;
  }

  lemma ReportedMembers(a: seq<Thread>, b: seq<Thread>, path: string, root: string)
    requires Reported(a, path, root) && forall t | t in a :: t in b
    ensures Reported(b, path, root)
  {
    var i :| 0 <= i < |a| && a[i].path == path && a[i].rootID == root;
    assert a[i] in b;
    var j :| 0 <= j < |b| && b[j] == a[i];
  }

  /** A group is sorted by time and kept if its last comment is unresolved. */
  method OpenThread(path: string, comments: seq<Comment>, byID: Index, root: string, group: seq<Comment>)
    returns (t: Option<Thread>)
    requires byID == IndexOf(comments) && group == Group(comments, byID, root) && group != []
    ensures t.Some? ==> t.value.path == path && t.value.rootID == root && Reports(t.value, path, comments)
    ensures t.None? ==> Settled(comments, root)
    ensures exists c :: c in group && (forall d | d in group :: !StrLess(c.updated, d.updated))
                        && (t.Some? <==> c.unresolved) && (t.Some? ==> t.value.latestID == c.id)
  {
    OrdersCompare();
    var sorted := SortSlice(group, Earlier);
    LastIsNewest(group, sorted);
    GroupIndexed(comments, root);
    var latest := sorted[|sorted| - 1];
    if !latest.unresolved {
      return None;
    }
    t := Some(Thread(root, path, byID[root].line, latest.id, sorted));
  }

  /** One path: every group is reported, or its newest comment is resolved. */
  method ThreadsOfPath(path: string, comments: seq<Comment>) returns (out: seq<Thread>)
    ensures PathThreads(path, comments, out)
  {
    var byID := IndexComments(comments);
    var groups := GroupComments(comments, byID);
    out := [];
    var todo := groups.Keys;
    while todo != {}
      invariant todo <= groups.Keys
      invariant forall t | t in out :: Reports(t, path, comments)
      invariant forall i | 0 <= i < |out| :: out[i].rootID !in todo
      invariant forall i, j | 0 <= i < j < |out| :: out[i].rootID != out[j].rootID
      invariant forall root | root in groups && root !in todo :: Reported(out, path, root) || Settled(comments, root)
      decreases todo
    {
      var root :| root in todo;
      todo := todo - {root};
      var t := OpenThread(path, comments, byID, root, groups[root]);
      if t.Some? {
        ghost var was := out;
        out := out + [t.value];
        assert out[|was|].rootID == root;
        forall r | Reported(was, path, r) ensures Reported(out, path, r) { ReportedMembers(was, out, path, r); }
      }
    }
  }

  /** No thread is listed twice, nor two for the same path and root. */
  ghost predicate OncePerRoot(out: seq<Thread>) {
    && (forall t | t in out :: multiset(out)[t] == 1)
    && (forall t, u | t in out && u in out && t.path == u.path && t.rootID == u.rootID :: t == u)
  }

  /** The open threads of a change: every one reports a group, and every group is reported or settled. */
  ghost predicate OpenThreads(byPath: map<string, seq<Comment>>, out: seq<Thread>) {
    && (forall t | t in out :: t.path in byPath && Reports(t, t.path, byPath[t.path]))
    && OncePerRoot(out)
    && (forall path, root | path in byPath && Group(byPath[path], IndexOf(byPath[path]), root) != [] ::
          Reported(out, path, root) || Settled(byPath[path], root))
  }

  lemma {:induction false} DistinctRootsOnce(ts: seq<Thread>, path: string)
    requires forall t | t in ts :: t.path == path
    requires forall i, j | 0 <= i < j < |ts| :: ts[i].rootID != ts[j].rootID
    ensures OncePerRoot(ts)
    decreases |ts|
  {
    if ts != [] {
      var front, last := ts[..|ts| - 1], ts[|ts| - 1];
      assert ts == front + [last];
      DistinctRootsOnce(front, path);
    }
  }

  lemma AppendPath(acc: seq<Thread>, ts: seq<Thread>, path: string)
    requires OncePerRoot(acc) && OncePerRoot(ts)
    requires (forall t | t in acc :: t.path != path) && (forall t | t in ts :: t.path == path)
    ensures OncePerRoot(acc + ts)
  {
    forall t | t in acc + ts ensures multiset(acc + ts)[t] == 1 {
      assert multiset(acc + ts) == multiset(acc) + multiset(ts);
      assert t in acc <==> t in multiset(acc);
      assert t in ts <==> t in multiset(ts);
    }
  }

  lemma {:induction false} OpenThreadsPermute(byPath: map<string, seq<Comment>>, a: seq<Thread>, b: seq<Thread>)
    requires OpenThreads(byPath, a) && multiset(a) == multiset(b)
    ensures OpenThreads(byPath, b)
  {
    SameMembers(a, b);
    forall path, root | path in byPath && Group(byPath[path], IndexOf(byPath[path]), root) != []
      ensures Reported(b, path, root) || Settled(byPath[path], root)
    {
      if Reported(a, path, root) { ReportedMembers(a, b, path, root); }
    }
  }

  lemma {:induction false} OpenThreadsGrow(done: map<string, seq<Comment>>, path: string, comments: seq<Comment>,
                        acc: seq<Thread>, ts: seq<Thread>)
    requires OpenThreads(done, acc) && path !in done && PathThreads(path, comments, ts)
    ensures OpenThreads(done[path := comments], acc + ts)
  {
    var all := done[path := comments];
    DistinctRootsOnce(ts, path);
    AppendPath(acc, ts, path);
    forall p, root | p in all && Group(all[p], IndexOf(all[p]), root) != []
      ensures Reported(acc + ts, p, root) || Settled(all[p], root)
    {
      if p == path {
        if Reported(ts, p, root) { ReportedMembers(ts, acc + ts, p, root); }
      } else {
        if Reported(acc, p, root) { ReportedMembers(acc, acc + ts, p, root); }
      }
    }
  }

  lemma StrIrreflexive(s: string)
    ensures !StrLess(s, s)
  {
    StrTotal(s, s);
  }

  /** All paths, the result ordered by root id. */
  method OpenThreadsOf(byPath: map<string, seq<Comment>>) returns (out: seq<Thread>)
    ensures OpenThreads(byPath, out)
    ensures forall i, j | 0 <= i < j < |out| :: !StrLess(out[j].rootID, out[i].rootID)
  {
    var paths := SortedKeys(byPath.Keys);
    ListingElements(paths, byPath.Keys);
    var acc: seq<Thread> := [];
    ghost var done: map<string, seq<Comment>> := map[];
    for i := 0 to |paths|
      invariant done.Keys == (set p | p in paths[..i]) && forall p | p in done :: done[p] == byPath[p]
      invariant OpenThreads(done, acc)
    {
      var path := paths[i];
      assert path in paths && paths[..i + 1] == paths[..i] + [path];
      assert path !in paths[..i] by { StrIrreflexive(path); }
      var ts := ThreadsOfPath(path, byPath[path]);
      OpenThreadsGrow(done, path, byPath[path], acc, ts);
      acc, done := acc + ts, done[path := byPath[path]];
    }
    assert paths[..|paths|] == paths && done == byPath;
    OrdersCompare();
    out := SortSlice(acc, RootBefore);
    OpenThreadsPermute(byPath, acc, out);
  }

  ghost predicate DistinctTimes(comments: seq<Comment>) {
    forall a, b | a in comments && b in comments && a.updated == b.updated :: a == b
  }

  lemma {:induction false} NewestUnique(comments: seq<Comment>, root: string, c: Comment, d: Comment)
    requires DistinctTimes(comments)
    requires var g := Group(comments, IndexOf(comments), root); Newest(g, c) && Newest(g, d)
    ensures c == d
  {
    GroupsPartition(comments, IndexOf(comments), root);
    StrTotal(c.updated, d.updated);
  }

  lemma NewestCarries(a: seq<Comment>, b: seq<Comment>, c: Comment)
    requires multiset(a) == multiset(b) && Newest(a, c)
    ensures Newest(b, c)
  {
    SameMembers(a, b);
  }

  /** The comment a report ends with is newest in the whole group. */
  lemma {:induction false} ReportEndsNewest(t: Thread, path: string, comments: seq<Comment>) returns (latest: Comment)
    requires Reports(t, path, comments)
    ensures Newest(Group(comments, IndexOf(comments), t.rootID), latest)
    ensures latest.unresolved && t.latestID == latest.id
  {
    latest := t.comments[|t.comments| - 1];
    NewestCarries(t.comments, Group(comments, IndexOf(comments), t.rootID), latest);
  }

  /** With distinct update times the answer is exact: a group is reported if and only if its newest
      comment is unresolved, and then with that comment as the one to answer. */
  lemma {:induction false} ReportedIffUnresolved(byPath: map<string, seq<Comment>>, out: seq<Thread>, path: string, root: string, c: Comment)
    requires OpenThreads(byPath, out) && path in byPath && DistinctTimes(byPath[path])
    requires var g := Group(byPath[path], IndexOf(byPath[path]), root); c in g && forall d | d in g :: !StrLess(c.updated, d.updated)
    ensures Reported(out, path, root) <==> c.unresolved
    ensures forall t | t in out && t.path == path && t.rootID == root :: t.latestID == c.id
  {
    forall t | t in out && t.path == path && t.rootID == root ensures t.latestID == c.id && c.unresolved {
      var latest := ReportEndsNewest(t, path, byPath[path]);
      NewestUnique(byPath[path], root, c, latest);
    }
    if Reported(out, path, root) {
      var i :| 0 <= i < |out| && out[i].path == path && out[i].rootID == root;
      assert out[i] in out;
    } else {
      assert Settled(byPath[path], root);
      var d :| Newest(Group(byPath[path], IndexOf(byPath[path]), root), d) && !d.unresolved;
      NewestUnique(byPath[path], root, c, d);
    }
  }
}
