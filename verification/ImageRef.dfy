/** Image references: the registry test, the daemon's canonical form, and the console's
    way back from a canonical form to a reference that is placed on its holders. */
module ImageRef {

  /** Position of the first `c`, or -1. */
  function Index(s: string, c: char): (i: int)
    ensures -1 <= i < |s|
    ensures i >= 0 ==> s[i] == c && c !in s[..i]
    ensures i < 0 <==> c !in s
  {
    if s == "" then -1
    else if s[0] == c then 0
    else
      var i := Index(s[1..], c);
      assert s == [s[0]] + s[1..];
      assert i >= 0 ==> s[..i + 1] == [s[0]] + s[1..][..i];
      if i < 0 then -1 else i + 1
  }

  /** Position of the last `c`, or -1. */
  function LastIndex(s: string, c: char): (i: int)
    ensures -1 <= i < |s|
    ensures i >= 0 ==> s[i] == c && c !in s[i + 1..]
    ensures i < 0 <==> c !in s
  {
    if s == "" then -1
    else
      var n := |s| - 1;
      if s[n] == c then n
      else
        var i := LastIndex(s[..n], c);
        assert s == s[..n] + [s[n]];
        assert i >= 0 ==> s[i + 1..] == s[..n][i + 1..] + [s[n]];
        i
  }

  const HUB := "docker.io/"
  const LIBRARY := "library/"
  const DEFAULT_TAG := ":latest"

  /** The first path component names a registry. */
  predicate Pullable(ref: string) {
    var i := Index(ref, '/');
    i >= 0 && (ref[..i] == "localhost" || '.' in ref[..i] || ':' in ref[..i])
  }

  function LastSegment(ref: string): string { ref[LastIndex(ref, '/') + 1..] }

  /** Docker's default tag, when the last segment has none. */
  function Tagged(ref: string): string {
    if ':' in LastSegment(ref) then ref else ref + DEFAULT_TAG
  }

  function Canonical(ref: string): string {
    Tagged(if Pullable(ref) then ref
           else if '/' in ref then HUB + ref
           else HUB + LIBRARY + ref)
  }

  /** What the console requests for a listed name. */
  function RequestableTemplate(name: string): string {
    if HUB + LIBRARY <= name then name[|HUB + LIBRARY|..]
    else if HUB <= name then name[|HUB|..]
    else name
  }

  // ---- segments ----

  lemma {:induction false} IndexUnique(s: string, c: char, i: nat)
    requires i < |s| && s[i] == c && c !in s[..i]
    ensures Index(s, c) == i
  {
    if i > 0 {
      assert s[0] in s[..i];
      assert s[..i] == [s[0]] + s[1..][..i - 1];
      IndexUnique(s[1..], c, i - 1);
    }
  }

  lemma {:induction false} LastIndexUnique(s: string, c: char, i: nat)
    requires i < |s| && s[i] == c && c !in s[i + 1..]
    ensures LastIndex(s, c) == i
  {
    var n := |s| - 1;
    if i < n {
      assert s[i + 1..] == s[..n][i + 1..] + [s[n]];
      assert s[n] in s[i + 1..];
      LastIndexUnique(s[..n], c, i);
    }
  }

  /** What follows the first segment does not matter for the registry test. */
  lemma FirstSegmentStable(s: string, more: string)
    requires '/' in s
    ensures Pullable(s + more) == Pullable(s)
  {
    var i := Index(s, '/');
    assert (s + more)[..i] == s[..i];
    IndexUnique(s + more, '/', i);
  }

  /** A path in front does not change the last segment. */
  lemma LastSegmentBehind(front: string, s: string)
    requires front != "" && front[|front| - 1] == '/'
    ensures LastSegment(front + s) == LastSegment(s)
  {
    var t, j := front + s, LastIndex(s, '/');
    var i := if j >= 0 then |front| + j else |front| - 1;
    assert t[i + 1..] == s[j + 1..];
    LastIndexUnique(t, '/', i);
  }

  lemma LastSegmentGrows(s: string, more: string)
    requires '/' !in more
    ensures LastSegment(s + more) == LastSegment(s) + more
  {
    var t, j := s + more, LastIndex(s, '/');
    assert t[j + 1..] == s[j + 1..] + more;
    if j >= 0 { LastIndexUnique(t, '/', j); }
  }

  lemma DefaultTagShape()
    ensures ':' in DEFAULT_TAG && '/' !in DEFAULT_TAG
  {
    assert DEFAULT_TAG[0] == ':';
  }

  lemma SuffixTags(s: string, tag: string)
    requires ':' in tag && '/' !in tag
    ensures ':' in LastSegment(s + tag)
    ensures '/' in s + tag <==> '/' in s
  {
    LastSegmentGrows(s, tag);
  }

  lemma TaggedOnce(s: string)
    ensures ':' in LastSegment(Tagged(s)) && Tagged(Tagged(s)) == Tagged(s)
    ensures '/' in Tagged(s) <==> '/' in s
  {
    DefaultTagShape();
    SuffixTags(s, DEFAULT_TAG);
  }

  lemma TaggedBehind(front: string, s: string)
    requires front != "" && front[|front| - 1] == '/'
    ensures Tagged(front + s) == front + Tagged(s)
  {
    LastSegmentBehind(front, s);
    assert (front + s) + DEFAULT_TAG == front + (s + DEFAULT_TAG);
  }

  lemma TaggedPullable(s: string)
    ensures Pullable(Tagged(s)) == Pullable(s)
  {
    if '/' in s { FirstSegmentStable(s, DEFAULT_TAG); } else { TaggedOnce(s); }
  }

  lemma HubPullable(rest: string)
    ensures Pullable(HUB + rest) && '/' in HUB + rest
  {
    assert HUB[9] == '/' && HUB[..9][6] == '.';
    IndexUnique(HUB, '/', 9);
    FirstSegmentStable(HUB, rest);
    assert (HUB + rest)[9] == '/';
  }

  // ---- normal form ----

  lemma CanonicalUnfolds(r: string)
    ensures Pullable(r) ==> Canonical(r) == Tagged(r)
    ensures !Pullable(r) && '/' in r ==> Canonical(r) == HUB + Tagged(r)
    ensures '/' !in r ==> !Pullable(r) && Canonical(r) == (HUB + LIBRARY) + Tagged(r)
  {
    TaggedBehind(HUB, r);
    TaggedBehind(HUB + LIBRARY, r);
  }

  /** The registry rule: what precedes the first slash is a host if it is "localhost" or has a dot or a colon. */
  lemma RegistryRule(host: string, rest: string)
    requires '/' !in host
    ensures Pullable(host + "/" + rest) <==> host == "localhost" || '.' in host || ':' in host
    ensures !Pullable(host)
  {
    var r := host + "/" + rest;
    assert r[..|host|] == host && r[|host|] == '/';
    IndexUnique(r, '/', |host|);
  }

  lemma LastSegmentIs(path: string, name: string)
    requires '/' !in name && (path == "" || path[|path| - 1] == '/')
    ensures LastSegment(path + name) == name && ('/' in path + name <==> path != "")
  {
    assert LastIndex(name, '/') == -1 && name[0..] == name;
    if path == "" {
      assert path + name == name;
    } else {
      LastSegmentBehind(path, name);
      assert (path + name)[|path| - 1] == '/';
    }
  }

  /** What is added to a reference, split before its last segment: a registry if it names none, with Docker Hub's
      own namespace if it has no path, and the default tag if its last segment has none. */
  lemma CanonicalAdds(path: string, name: string)
    requires '/' !in name && (path == "" || path[|path| - 1] == '/')
    ensures var ref := path + name;
            var tagged := if ':' in name then ref else ref + ":latest";
            Canonical(ref) == if Pullable(ref) then tagged
                              else if path == "" then "docker.io/library/" + tagged else "docker.io/" + tagged
  {
    LastSegmentIs(path, name);
    CanonicalUnfolds(path + name);
    HubLibrary();
  }

  lemma HubLibrary()
    ensures HUB == "docker.io/" && HUB + LIBRARY == "docker.io/library/"
  {}

  /** For every string, the canonical form names a registry, carries a tag and is a fixed point. */
  lemma CanonicalNormalForm(r: string)
    ensures Pullable(Canonical(r))
    ensures ':' in LastSegment(Canonical(r))
    ensures Canonical(Canonical(r)) == Canonical(r)
  {
    var q := if Pullable(r) then r else if '/' in r then HUB + r else HUB + LIBRARY + r;
    assert Pullable(q) by {
      HubPullable(r);
      HubPullable(LIBRARY + r);
      assert HUB + LIBRARY + r == HUB + (LIBRARY + r);
    }
    TaggedPullable(q);
    TaggedOnce(q);
  }

  /** The reference below Docker Hub's own namespace, or the reference itself. */
  function Bare(r: string): string { if LIBRARY <= r then r[|LIBRARY|..] else r }

  /** A reference the console cannot bring back: a path below Docker Hub's own namespace. */
  predicate BelowLibrary(r: string) { LIBRARY <= r && '/' in Bare(r) }

  /** A prefix that ends at its only slash is not completed by text behind the first slash. */
  lemma SlashCompletesPrefix(prefix: string, r: string, more: string)
    requires prefix != "" && '/' !in prefix[..|prefix| - 1]
    requires !(prefix <= r) && '/' in r
    ensures !(prefix <= r + more)
  {
    if |r| >= |prefix| {
      assert (r + more)[..|prefix|] == r[..|prefix|];
    } else {
      var k :| 0 <= k < |r| && r[k] == '/';
      assert prefix[..|prefix| - 1][k] == prefix[k];
      assert (r + more)[k] == '/' != prefix[k];
    }
  }

  lemma PrefixBehind(front: string, a: string, b: string)
    ensures front + a <= front + b <==> a <= b
    ensures (front + b)[|front|..] == b
  {
    if |a| <= |b| {
      assert (front + b)[..|front + a|] == front + b[..|a|];
      assert (front + a)[|front|..] == a;
      assert (front + b[..|a|])[|front|..] == b[..|a|];
    }
  }

  /** Unqualified references outside "library/". */
  lemma RequestedPlain(r: string)
    requires !Pullable(r) && !(LIBRARY <= r)
    ensures RequestableTemplate(Canonical(r)) == Tagged(r)
  {
    CanonicalUnfolds(r);
    if '/' in r {
      LibraryShape();
      SlashCompletesPrefix(LIBRARY, r, DEFAULT_TAG);
      PrefixBehind(HUB, LIBRARY, Tagged(r));
    } else {
      PrefixBehind(HUB + LIBRARY, "", Tagged(r));
      assert HUB + LIBRARY + "" == HUB + LIBRARY;
    }
  }

  lemma LibraryShape()
    ensures |LIBRARY| == 8 && LIBRARY[7] == '/'
    ensures '/' !in LIBRARY[..7] && '.' !in LIBRARY[..7] && ':' !in LIBRARY[..7]
    ensures LIBRARY[..7] != "localhost"
  {
    assert |"localhost"| == 9;
  }

  lemma LibraryNoRegistry()
    ensures !Pullable(LIBRARY) && '/' in LIBRARY
  {
    LibraryShape();
    IndexUnique(LIBRARY, '/', 7);
  }

  lemma LibraryUnqualified(x: string)
    ensures !Pullable(LIBRARY + x) && '/' in LIBRARY + x
  {
    LibraryNoRegistry();
    FirstSegmentStable(LIBRARY, x);
  }

  lemma CanonicalLibrary(x: string)
    ensures Canonical(LIBRARY + x) == (HUB + LIBRARY) + Tagged(x)
  {
    LibraryUnqualified(x);
    CanonicalUnfolds(LIBRARY + x);
    TaggedBehind(LIBRARY, x);
    Associate(HUB, LIBRARY, Tagged(x));
  }

  lemma Associate(a: string, b: string, c: string)
    ensures a + (b + c) == (a + b) + c
  {}

  /** References below "library/". */
  lemma RequestedLibrary(x: string)
    ensures Canonical(LIBRARY + x) == (HUB + LIBRARY) + Tagged(x)
    ensures RequestableTemplate(Canonical(LIBRARY + x)) == Tagged(x)
  {
    CanonicalLibrary(x);
    PrefixBehind(HUB + LIBRARY, "", Tagged(x));
    assert HUB + LIBRARY + "" == HUB + LIBRARY;
  }

  /** The console's inverse is exact for every unqualified reference outside "library/a/b...":
      requesting the listed name means the same image again. Below "library/" it never does. */
  lemma RequestRoundTrip(r: string)
    requires !Pullable(r)
    ensures Canonical(RequestableTemplate(Canonical(r))) == Canonical(r) <==> !BelowLibrary(r)
  {
    if LIBRARY <= r {
      SplitLibrary(r);
      LibraryRoundTrip(Bare(r));
    } else {
      RequestedPlain(r);
      CanonicalUnfolds(r);
      CanonicalUnfolds(Tagged(r));
      TaggedOnce(r);
      TaggedPullable(r);
    }
  }

  lemma LibraryRoundTrip(x: string)
    ensures Canonical(RequestableTemplate(Canonical(LIBRARY + x))) == Canonical(LIBRARY + x) <==> '/' !in x
  {
    RequestedLibrary(x);
    TaggedOnce(x);
    CanonicalUnfolds(Tagged(x));
    if '/' in x {
      assert |Canonical(Tagged(x))| <= |HUB| + |Tagged(x)|;
    }
  }

  /** The requested form is unqualified, hence placed on holders only, unless a registry host
      hides behind "library/". */
  lemma RequestStaysLocal(r: string)
    requires !Pullable(r)
    ensures Pullable(RequestableTemplate(Canonical(r))) <==> LIBRARY <= r && Pullable(Bare(r))
  {
    if LIBRARY <= r {
      SplitLibrary(r);
      RequestedLibrary(Bare(r));
      TaggedPullable(Bare(r));
    } else {
      RequestedPlain(r);
      TaggedPullable(r);
    }
  }

  lemma SplitLibrary(r: string)
    requires LIBRARY <= r
    ensures r == LIBRARY + Bare(r)
  {}
}
