/** `path.Clean` of the Go library: the shortest name lexically equal to a path,
    by the four rules of its documentation, as a fold over components. */
module CleanPaths {
  import opened Bytes

  // ------------------------------------------------------- splitting, joining

  /** strings.Split(s, "/"). */
  function Split(s: Text): (cs: seq<Text>)
    ensures |cs| > 0
    ensures forall i | 0 <= i < |cs| :: '/' !in cs[i]
  {
    if s == "" then [""]
    else
      var rest := Split(s[1..]);
      if s[0] == '/' then [""] + rest else [[s[0]] + rest[0]] + rest[1..]
  }

  /** strings.Join(cs, "/"). */
  function Join(cs: seq<Text>): Text {
    if cs == [] then "" else if |cs| == 1 then cs[0] else cs[0] + "/" + Join(cs[1..])
  }

  lemma {:induction false} SplitComponent(c: Text)
    requires '/' !in c
    ensures Split(c) == [c]
  {
    if c != "" {
      assert c[0] in c;
      SplitComponent(c[1..]);
      assert [c[0]] + c[1..] == c;
    }
  }

  lemma {:induction false} SplitFirst(c: Text, s: Text)
    requires '/' !in c
    ensures Split(c + "/" + s) == [c] + Split(s)
  {
    var all := c + "/" + s;
    if c == "" {
      assert all[1..] == s;
    } else {
      assert c[0] in c;
      assert all[1..] == c[1..] + "/" + s;
      SplitFirst(c[1..], s);
      assert [c[0]] + c[1..] == c;
      var rest := [c[1..]] + Split(s);
      assert rest[1..] == Split(s);
    }
  }

  lemma {:induction false} SplitJoin(cs: seq<Text>)
    requires cs != [] && forall i | 0 <= i < |cs| :: '/' !in cs[i]
    ensures Split(Join(cs)) == cs
  {
    if |cs| == 1 {
      SplitComponent(cs[0]);
    } else {
      SplitJoin(cs[1..]);
      SplitFirst(cs[0], Join(cs[1..]));
    }
  }

  lemma {:induction false} JoinSplit(s: Text)
    ensures Join(Split(s)) == s
  {
    if s != "" {
      JoinSplit(s[1..]);
      var rest := Split(s[1..]);
      if s[0] == '/' {
        assert ([""] + rest)[1..] == rest;
      } else {
        assert ([[s[0]] + rest[0]] + rest[1..])[1..] == rest[1..];
      }
    }
  }

  // ------------------------------------------------------------------ cleaning

  /** One component on top of those resolved so far. */
  function Push(stack: seq<Text>, c: Text, rooted: bool): seq<Text> {
    if c == "" || c == "." then stack
    else if c != ".." then stack + [c]
    else if stack != [] && stack[|stack| - 1] != ".." then stack[..|stack| - 1]
    else if rooted then stack
    else stack + [".."]
  }

  function Resolve(stack: seq<Text>, cs: seq<Text>, rooted: bool): seq<Text>
    decreases |cs|
  {
    if cs == [] then stack else Resolve(Push(stack, cs[0], rooted), cs[1..], rooted)
  }

  function Abs(cs: seq<Text>): Text {
    "/" + Join(cs)
  }

  function Clean(p: Text): Text {
    if p != "" && p[0] == '/' then Abs(Resolve([], Split(p), true))
    else
      var cs := Resolve([], Split(p), false);
      if cs == [] then "." else Join(cs)
  }

  // ------------------------------------------------------------ resolved stacks

  predicate Plain(c: Text) {
    c != "" && c != "." && '/' !in c
  }

  /** Nothing to eliminate: no empty or "." component, and ".." only in front, and
      not at all below the root. */
  ghost predicate Resolved(cs: seq<Text>, rooted: bool) {
    && (forall i | 0 <= i < |cs| :: Plain(cs[i]))
    && (forall i | 0 <= i < |cs| && cs[i] == ".." :: !rooted && (i == 0 || cs[i - 1] == ".."))
  }

  lemma PushResolved(stack: seq<Text>, c: Text, rooted: bool)
    requires Resolved(stack, rooted) && '/' !in c
    ensures Resolved(Push(stack, c, rooted), rooted)
  {
  }

  lemma {:induction false} ResolveResolved(stack: seq<Text>, cs: seq<Text>, rooted: bool)
    requires Resolved(stack, rooted) && forall i | 0 <= i < |cs| :: '/' !in cs[i]
    ensures Resolved(Resolve(stack, cs, rooted), rooted)
    decreases |cs|
  {
    if cs != [] {
      PushResolved(stack, cs[0], rooted);
      ResolveResolved(Push(stack, cs[0], rooted), cs[1..], rooted);
    }
  }

  lemma {:induction false} ResolveKeeps(stack: seq<Text>, cs: seq<Text>, rooted: bool)
    requires Resolved(stack + cs, rooted)
    ensures Resolve(stack, cs, rooted) == stack + cs
    decreases |cs|
  {
    if cs == [] {
      assert stack + cs == stack;
    } else {
      assert (stack + cs)[|stack|] == cs[0];
      assert stack != [] ==> (stack + cs)[|stack| - 1] == stack[|stack| - 1];
      assert Push(stack, cs[0], rooted) == stack + [cs[0]];
      assert stack + [cs[0]] + cs[1..] == stack + cs;
      ResolveKeeps(stack + [cs[0]], cs[1..], rooted);
    }
  }

  lemma {:induction false} ResolveAppend(stack: seq<Text>, a: seq<Text>, b: seq<Text>, rooted: bool)
    ensures Resolve(stack, a + b, rooted) == Resolve(Resolve(stack, a, rooted), b, rooted)
    decreases |a|
  {
    if a == [] {
      assert a + b == b;
    } else {
      assert (a + b)[1..] == a[1..] + b;
      ResolveAppend(Push(stack, a[0], rooted), a[1..], b, rooted);
    }
  }

  // ------------------------------------------------------------------- results

  /** Below the root only what follows the slash counts. */
  lemma CleanRooted(s: Text)
    ensures Clean("/" + s) == Abs(Resolve([], Split(s), true))
  {
  }

  /** A cleaned rooted path is the slash-separated text of resolved components. */
  lemma CleanIsAbs(p: Text) returns (cs: seq<Text>)
    requires p != "" && p[0] == '/'
    ensures Resolved(cs, true) && Clean(p) == Abs(cs) && cs == Resolve([], Split(p), true)
  {
    cs := Resolve([], Split(p), true);
    ResolveResolved([], Split(p), true);
  }

  lemma CleanAbs(cs: seq<Text>)
    requires Resolved(cs, true)
    ensures Clean(Abs(cs)) == Abs(cs)
  {
    CleanRooted(Join(cs));
    if cs == [] {
      assert Split("") == [""];
      assert Resolve([], [""], true) == [];
    } else {
      SplitJoin(cs);
      assert [] + cs == cs;
      ResolveKeeps([], cs, true);
    }
  }

  lemma JoinRelative(cs: seq<Text>)
    requires cs != [] && Resolved(cs, false)
    ensures Join(cs) != "" && Join(cs)[0] != '/'
  {
  }

  lemma CleanJoin(cs: seq<Text>)
    requires cs != [] && Resolved(cs, false)
    ensures Clean(Join(cs)) == Join(cs)
  {
    JoinRelative(cs);
    SplitJoin(cs);
    assert [] + cs == cs;
    ResolveKeeps([], cs, false);
  }

  /** Cleaning twice is cleaning once. */
  lemma CleanIdempotent(p: Text)
    ensures Clean(Clean(p)) == Clean(p)
  {
    if p != "" && p[0] == '/' {
      var cs := CleanIsAbs(p);
      CleanAbs(cs);
    } else {
      var cs := Resolve([], Split(p), false);
      ResolveResolved([], Split(p), false);
      if cs == [] {
        CleanDot();
      } else {
        CleanJoin(cs);
      }
    }
  }

  lemma CleanDot()
    ensures Clean(".") == "."
  {
  }

  /** Cleaning keeps a path rooted, or keeps it relative. */
  lemma CleanRoot(p: Text)
    ensures Clean(p) != "" && (Clean(p)[0] == '/' <==> (p != "" && p[0] == '/'))
  {
    if !(p != "" && p[0] == '/') {
      var cs := Resolve([], Split(p), false);
      ResolveResolved([], Split(p), false);
      if cs != [] {
        JoinRelative(cs);
      }
    }
  }

  /** A rooted text is clean if and only if its components are. */
  lemma CleanIff(s: Text)
    ensures Clean("/" + s) == "/" + s <==> s == "" || Resolved(Split(s), true)
  {
    var cs := CleanIsAbs("/" + s);
    CleanRooted(s);
    if Clean("/" + s) == "/" + s {
      assert Join(cs) == s by {
        assert Abs(cs)[1..] == Join(cs) && ("/" + s)[1..] == s;
      }
      if cs != [] {
        SplitJoin(cs);
      }
    } else if s == "" {
      CleanAbs([]);
    } else if Resolved(Split(s), true) {
      JoinSplit(s);
      CleanAbs(Split(s));
    }
  }

  // --------------------------------------------------------------- the rules

  lemma ResolveMiddle(a: seq<Text>, mid: seq<Text>, b: seq<Text>, rooted: bool)
    requires Resolve(Resolve([], a, rooted), mid, rooted) == Resolve([], a, rooted)
    ensures Resolve([], a + mid + b, rooted) == Resolve([], a + b, rooted)
  {
    ResolveAppend([], a + mid, b, rooted);
    ResolveAppend([], a, mid, rooted);
    ResolveAppend([], a, b, rooted);
  }

  lemma ResolvePair(stack: seq<Text>, c: Text, rooted: bool)
    requires c != "" && c != "." && c != ".."
    ensures Resolve(stack, [c, ".."], rooted) == stack
  {
    var pushed := stack + [c];
    assert [c, ".."][1..] == [".."] && [".."][1..] == [];
    assert Push(stack, c, rooted) == pushed && pushed[|pushed| - 1] == c;
    assert Resolve(pushed, [".."], rooted) == Resolve(Push(pushed, "..", rooted), [], rooted);
    assert pushed[..|pushed| - 1] == stack;
  }

  lemma ResolveSkip(stack: seq<Text>, c: Text, rooted: bool)
    requires c == "" || c == "."
    ensures Resolve(stack, [c], rooted) == stack
  {
    assert [c][1..] == [];
  }

  lemma ResolveUp(b: seq<Text>)
    ensures Resolve([], [".."] + b, true) == Resolve([], b, true)
  {
    assert ([".."] + b)[1..] == b;
  }

  /** The four rules of the documentation of `path.Clean`, on components: an empty one
      (a doubled slash) and a dot may be dropped anywhere, a name with the dot-dot
      after it anywhere, and a dot-dot at the root. What none of them applies to is
      left as it is. */
  lemma CleanRules(a: seq<Text>, c: Text, b: seq<Text>, rooted: bool)
    ensures Resolve([], a + [""] + b, rooted) == Resolve([], a + b, rooted)
    ensures Resolve([], a + ["."] + b, rooted) == Resolve([], a + b, rooted)
    ensures c != "" && c != "." && c != ".." ==> Resolve([], a + [c, ".."] + b, rooted) == Resolve([], a + b, rooted)
    ensures Resolve([], [".."] + b, true) == Resolve([], b, true)
    ensures Resolved(b, rooted) ==> Resolve([], b, rooted) == b
  {
    ResolveSkip(Resolve([], a, rooted), "", rooted);
    ResolveMiddle(a, [""], b, rooted);
    ResolveSkip(Resolve([], a, rooted), ".", rooted);
    ResolveMiddle(a, ["."], b, rooted);
    if c != "" && c != "." && c != ".." {
      ResolvePair(Resolve([], a, rooted), c, rooted);
      ResolveMiddle(a, [c, ".."], b, rooted);
    }
    ResolveUp(b);
    if Resolved(b, rooted) {
      assert [] + b == b;
      ResolveKeeps([], b, rooted);
    }
  }

  // --------------------------------------------------------- above the start

  /** How many components lead upwards. */
  function Ups(cs: seq<Text>): (n: nat)
    ensures n <= |cs|
    ensures forall i | 0 <= i < n :: cs[i] == ".."
    ensures n < |cs| ==> cs[n] != ".."
  {
    if cs == [] || cs[0] != ".." then 0 else 1 + Ups(cs[1..])
  }

  /** Where the resolved relative path `r` leads from `stack`. */
  function Onto(stack: seq<Text>, r: seq<Text>): seq<Text> {
    stack[..if Ups(r) <= |stack| then |stack| - Ups(r) else 0] + r[Ups(r)..]
  }

  lemma UpsAre(cs: seq<Text>, n: nat)
    requires n <= |cs| && (forall i | 0 <= i < n :: cs[i] == "..") && (n < |cs| ==> cs[n] != "..")
    ensures Ups(cs) == n
  {
  }

  lemma UpsFront(r: seq<Text>, k: nat)
    requires Resolved(r, false) && k < |r| && r[k] == ".."
    ensures k < Ups(r)
  {
    if Ups(r) <= k {
      FrontUps(r, Ups(r), k);
    }
  }

  lemma {:induction false} FrontUps(r: seq<Text>, j: nat, k: nat)
    requires Resolved(r, false) && j <= k < |r| && r[k] == ".."
    ensures r[j] == ".."
  {
    if j < k {
      FrontUps(r, j, k - 1);
    }
  }

  lemma PushOnto(stack: seq<Text>, r: seq<Text>, c: Text)
    requires Resolved(stack, true) && Resolved(r, false) && '/' !in c
    ensures Push(Onto(stack, r), c, true) == Onto(stack, Push(r, c, false))
  {
    if c == ".." {
      PopOnto(stack, r);
    } else if c != "" && c != "." {
      UpsAre(r + [c], Ups(r));
      assert (r + [c])[Ups(r)..] == r[Ups(r)..] + [c];
    }
  }

  lemma PopDown(stack: seq<Text>, r: seq<Text>)
    requires r != [] && r[|r| - 1] != ".."
    ensures Push(Onto(stack, r), "..", true) == Onto(stack, r[..|r| - 1])
  {
    var n, k := |r| - 1, Ups(r);
    UpsAre(r[..n], k);
    assert Onto(stack, r)[|Onto(stack, r)| - 1] == r[n];
    assert r[k..][..n - k] == r[..n][k..];
  }

  lemma OntoUps(stack: seq<Text>, r: seq<Text>, n: nat)
    requires Ups(r) == |r| == n
    ensures Onto(stack, r) == stack[..if n <= |stack| then |stack| - n else 0]
  {
    assert r[n..] == [];
  }

  lemma PopUp(stack: seq<Text>, r: seq<Text>)
    requires Resolved(stack, true) && Ups(r) == |r|
    ensures Push(Onto(stack, r), "..", true) == Onto(stack, r + [".."])
  {
    var k := |r|;
    UpsAre(r + [".."], k + 1);
    OntoUps(stack, r, k);
    OntoUps(stack, r + [".."], k + 1);
    PopFront(stack, if k <= |stack| then |stack| - k else 0);
  }

  /** Going up from a part of a rooted stack. */
  lemma PopFront(stack: seq<Text>, n: nat)
    requires Resolved(stack, true) && n <= |stack|
    ensures Push(stack[..n], "..", true) == stack[..if n == 0 then 0 else n - 1]
  {
    assert n > 0 ==> stack[..n][n - 1] == stack[n - 1] && stack[..n][..n - 1] == stack[..n - 1];
  }

  lemma PopOnto(stack: seq<Text>, r: seq<Text>)
    requires Resolved(stack, true) && Resolved(r, false)
    ensures Push(Onto(stack, r), "..", true) == Onto(stack, Push(r, "..", false))
  {
    if r != [] && r[|r| - 1] != ".." {
      PopDown(stack, r);
    } else {
      if r != [] {
        UpsFront(r, |r| - 1);
      }
      PopUp(stack, r);
    }
  }

  /** Below a rooted start, components lead where their relative form leads: first
      up, stopping at the root, and then down. */
  lemma {:induction false} ResolveOnto(stack: seq<Text>, r: seq<Text>, cs: seq<Text>)
    requires Resolved(stack, true) && Resolved(r, false) && forall i | 0 <= i < |cs| :: '/' !in cs[i]
    ensures Resolve(Onto(stack, r), cs, true) == Onto(stack, Resolve(r, cs, false))
    decreases |cs|
  {
    if cs != [] {
      PushOnto(stack, r, cs[0]);
      PushResolved(r, cs[0], false);
      ResolveOnto(stack, Push(r, cs[0], false), cs[1..]);
    }
  }
}
