/** The flattened outline of a symbol forest: every symbol just before its
    children, tagged with its nesting depth. */
module Outlines {
  import opened Bytes
  import opened Symbols

  datatype Entry = Entry(
    name: Text, kind: string, file: Text, range: Range, selRange: Range,
    signature: Text, detail: Text, depth: int)

  function EntryOf(s: Symbol, depth: int): Entry {
    Entry(s.name, s.kind, s.file, s.range, s.selRange, s.signature, s.detail, depth)
  }

  function Flatten(syms: seq<Symbol>, depth: int): seq<Entry>
    decreases syms
  {
    if syms == [] then []
    else [EntryOf(syms[0], depth)] + Flatten(syms[0].children, depth + 1) + Flatten(syms[1..], depth)
  }

  // ------------------------------------------------------------ the mutable walk

  lemma Shift(a: seq<Entry>, b: seq<Entry>, c: seq<Entry>, d: seq<Entry>)
    ensures a + b + c + d == a + (b + c + d)
  {
  }

  /** The recursive closure of `flattenSymbols` with the slice it appends to. */
  class Walker {
    var out: seq<Entry>

    constructor ()
      ensures out == []
    {
      out := [];
    }

    method Walk(syms: seq<Symbol>, depth: int)
      modifies this
      ensures out == old(out) + Flatten(syms, depth)
      decreases syms
    {
      assert syms[0..] == syms;
      for i := 0 to |syms|
        invariant out + Flatten(syms[i..], depth) == old(out) + Flatten(syms, depth)
      {
        ghost var before, rest := out, Flatten(syms[i + 1..], depth);
        var s := syms[i];
        assert syms[i..][0] == s && syms[i..][1..] == syms[i + 1..];
        out := out + [EntryOf(s, depth)];
        if |s.children| > 0 {
          Walk(s.children, depth + 1);
        }
        assert out == before + [EntryOf(s, depth)] + Flatten(s.children, depth + 1);
        Shift(before, [EntryOf(s, depth)], Flatten(s.children, depth + 1), rest);
      }
      assert Flatten(syms[|syms|..], depth) == [];
    }
  }

  method FlattenSymbols(syms: seq<Symbol>, depth: int) returns (out: seq<Entry>)
    ensures out == Flatten(syms, depth)
  {
    var w := new Walker();
    w.Walk(syms, depth);
    out := w.out;
  }

  // ---------------------------------------------------------------- rebuilding

  function SymbolOf(e: Entry, children: seq<Symbol>): Symbol {
    Symbol(e.name, e.kind, e.file, e.range, e.selRange, e.signature, e.detail, children)
  }

  /** Reads a forest of the given depth off the front of an outline; the second
      result is what is left. */
  function Rebuild(es: seq<Entry>, depth: int): (r: (seq<Symbol>, seq<Entry>))
    ensures |r.1| <= |es|
    decreases |es|
  {
    if es == [] || es[0].depth != depth then ([], es)
    else
      var (children, rest) := Rebuild(es[1..], depth + 1);
      var (siblings, left) := Rebuild(rest, depth);
      ([SymbolOf(es[0], children)] + siblings, left)
  }

  /** What may follow a forest of the given depth. */
  predicate Ends(es: seq<Entry>, depth: int) {
    es == [] || es[0].depth < depth
  }

  lemma FlattenCons(syms: seq<Symbol>, depth: int, tail: seq<Entry>)
    requires syms != []
    ensures Flatten(syms, depth) + tail
         == [EntryOf(syms[0], depth)]
            + (Flatten(syms[0].children, depth + 1) + (Flatten(syms[1..], depth) + tail))
  {
  }

  lemma RebuildOne(s: Symbol, siblings: seq<Symbol>, es: seq<Entry>, rest: seq<Entry>, tail: seq<Entry>, depth: int)
    requires Rebuild(es, depth + 1) == (s.children, rest) && Rebuild(rest, depth) == (siblings, tail)
    ensures Rebuild([EntryOf(s, depth)] + es, depth) == ([s] + siblings, tail)
  {
  }

  lemma {:induction false} RebuildFlatten(syms: seq<Symbol>, depth: int, tail: seq<Entry>)
    requires Ends(tail, depth)
    ensures Rebuild(Flatten(syms, depth) + tail, depth) == (syms, tail)
    decreases syms
  {
    if syms == [] {
      assert Flatten(syms, depth) + tail == tail;
    } else {
      var s, siblings := syms[0], syms[1..];
      var rest := Flatten(siblings, depth) + tail;
      FlattenEnds(siblings, depth, tail);
      RebuildFlatten(s.children, depth + 1, rest);
      RebuildFlatten(siblings, depth, tail);
      RebuildOne(s, siblings, Flatten(s.children, depth + 1) + rest, rest, tail, depth);
      FlattenCons(syms, depth, tail);
      assert [s] + siblings == syms;
    }
  }

  lemma FlattenEnds(syms: seq<Symbol>, depth: int, tail: seq<Entry>)
    requires Ends(tail, depth)
    ensures Ends(Flatten(syms, depth) + tail, depth + 1)
  {
  }

  /** The outline is lossless: rebuilding it gives back the forest. */
  lemma OutlineLossless(syms: seq<Symbol>, depth: int)
    ensures Rebuild(Flatten(syms, depth), depth) == (syms, [])
  {
    RebuildFlatten(syms, depth, []);
    assert Flatten(syms, depth) + [] == Flatten(syms, depth);
  }

  /** Forests that differ anywhere in shape or contents have different outlines. */
  lemma OutlineInjective(syms: seq<Symbol>, syms': seq<Symbol>, depth: int)
    requires Flatten(syms, depth) == Flatten(syms', depth)
    ensures syms == syms'
  {
    OutlineLossless(syms, depth);
    OutlineLossless(syms', depth);
  }

  // -------------------------------------------------------- well-formed outlines

  /** Depths start at the given depth, never fall below it, and rise by at most
      one. */
  ghost predicate WellNested(es: seq<Entry>, depth: int) {
    && (es != [] ==> es[0].depth == depth)
    && (forall i | 0 <= i < |es| :: es[i].depth >= depth)
    && (forall i | 0 < i < |es| :: es[i].depth <= es[i - 1].depth + 1)
  }

  lemma {:induction false} FlattenWellNested(syms: seq<Symbol>, depth: int)
    ensures WellNested(Flatten(syms, depth), depth)
    decreases syms
  {
    if syms != [] {
      FlattenWellNested(syms[0].children, depth + 1);
      FlattenWellNested(syms[1..], depth);
    }
  }

  /** Neighbours rise by at most one. */
  ghost predicate Climbs(es: seq<Entry>) {
    forall i | 0 < i < |es| :: es[i].depth <= es[i - 1].depth + 1
  }

  lemma ClimbsSuffix(front: seq<Entry>, es: seq<Entry>)
    requires Climbs(front + es)
    ensures Climbs(es)
  {
    forall i | 0 < i < |es| ensures es[i].depth <= es[i - 1].depth + 1 {
      assert (front + es)[|front| + i] == es[i] && (front + es)[|front| + i - 1] == es[i - 1];
    }
  }

  /** Rebuilding a climbing list and flattening the result gives back the list up to
      the first entry that is too shallow. */
  lemma {:induction false} FlattenRebuild(es: seq<Entry>, depth: int)
    requires (es != [] ==> es[0].depth <= depth) && Climbs(es)
    ensures var (syms, rest) := Rebuild(es, depth); Flatten(syms, depth) + rest == es && Ends(rest, depth)
    decreases |es|
  {
    if es == [] || es[0].depth != depth {
      RebuiltNone(es, depth);
    } else {
      var (children, rest) := Rebuild(es[1..], depth + 1);
      FirstClimbs(es);
      FlattenRebuild(es[1..], depth + 1);
      ClimbsSuffix(Flatten(children, depth + 1), rest);
      FlattenRebuild(rest, depth);
      var (siblings, left) := Rebuild(rest, depth);
      RebuiltFirst(es, depth, children, rest, siblings, left);
    }
  }

  lemma RebuiltFirst(es: seq<Entry>, depth: int, children: seq<Symbol>, rest: seq<Entry>,
                     siblings: seq<Symbol>, left: seq<Entry>)
    requires es != [] && es[0].depth == depth && Rebuild(es[1..], depth + 1) == (children, rest)
    requires Rebuild(rest, depth) == (siblings, left)
    requires Flatten(children, depth + 1) + rest == es[1..] && Flatten(siblings, depth) + left == rest
    ensures Rebuild(es, depth) == ([SymbolOf(es[0], children)] + siblings, left)
    ensures Flatten([SymbolOf(es[0], children)] + siblings, depth) + left == es
  {
    FlattenFirst(SymbolOf(es[0], children), siblings, depth);
    Regroup(es, Flatten(children, depth + 1), rest, Flatten(siblings, depth), left);
  }

  lemma RebuiltNone(es: seq<Entry>, depth: int)
    requires es == [] || es[0].depth != depth
    ensures Rebuild(es, depth) == ([], es) && Flatten([], depth) + es == es
  {
  }

  lemma FirstClimbs(es: seq<Entry>)
    requires Climbs(es) && es != []
    ensures Climbs(es[1..]) && (es[1..] != [] ==> es[1..][0].depth <= es[0].depth + 1)
  {
    assert es == [es[0]] + es[1..];
    ClimbsSuffix([es[0]], es[1..]);
  }

  lemma Regroup(es: seq<Entry>, below: seq<Entry>, rest: seq<Entry>, beside: seq<Entry>, left: seq<Entry>)
    requires es != [] && below + rest == es[1..] && beside + left == rest
    ensures [es[0]] + (below + beside) + left == es
  {
  }

  lemma DeepSuffix(front: seq<Entry>, rest: seq<Entry>, depth: int)
    requires forall i | 0 <= i < |front + rest| :: (front + rest)[i].depth >= depth
    ensures forall i | 0 <= i < |rest| :: rest[i].depth >= depth
  {
    assert forall i | 0 <= i < |rest| :: rest[i] == (front + rest)[|front| + i];
  }

  lemma WellNestedRebuilds(es: seq<Entry>, depth: int)
    requires WellNested(es, depth)
    ensures Rebuild(es, depth).1 == [] && Flatten(Rebuild(es, depth).0, depth) == es
  {
    var (syms, rest) := Rebuild(es, depth);
    FlattenRebuild(es, depth);
    DeepSuffix(Flatten(syms, depth), rest, depth);
  }

  /** A list of entries is the outline of some forest if and only if it is well
      nested. */
  lemma OutlineIff(es: seq<Entry>, depth: int)
    ensures WellNested(es, depth) <==> exists syms :: Flatten(syms, depth) == es
  {
    if WellNested(es, depth) {
      WellNestedRebuilds(es, depth);
    }
    if syms :| Flatten(syms, depth) == es {
      FlattenWellNested(syms, depth);
    }
  }

  // ---------------------------------------------------------------- truncation

  /** The forest whose outline is the first `n` entries: symbols are dropped from
      the end, and a kept symbol keeps a pruned list of children. */
  function Prune(syms: seq<Symbol>, n: nat): seq<Symbol>
    decreases syms
  {
    if syms == [] || n == 0 then []
    else
      var below := |Flatten(syms[0].children, 1)|;
      var children := Prune(syms[0].children, n - 1);
      [syms[0].(children := children)] + (if n - 1 < below then [] else Prune(syms[1..], n - 1 - below))
  }

  lemma {:induction false} FlattenLength(syms: seq<Symbol>, depth: int, depth': int)
    ensures |Flatten(syms, depth)| == |Flatten(syms, depth')|
    decreases syms
  {
    if syms != [] {
      FlattenLength(syms[0].children, depth + 1, depth' + 1);
      FlattenLength(syms[1..], depth, depth');
    }
  }

  function Min(a: nat, b: nat): nat {
    if a < b then a else b
  }

  lemma TakeConcat(e: Entry, a: seq<Entry>, b: seq<Entry>, n: nat)
    requires 0 < n <= 1 + |a| + |b|
    ensures ([e] + (a + b))[..n] == [e] + (a[..Min(n - 1, |a|)] + b[..if n - 1 < |a| then 0 else n - 1 - |a|])
  {
  }

  lemma FlattenFirst(s: Symbol, siblings: seq<Symbol>, depth: int)
    ensures Flatten([s] + siblings, depth)
         == [EntryOf(s, depth)] + (Flatten(s.children, depth + 1) + Flatten(siblings, depth))
  {
  }

  lemma PruneFirst(s: Symbol, siblings: seq<Symbol>, n: nat, below: nat)
    requires n > 0 && below == |Flatten(s.children, 1)|
    ensures Prune([s] + siblings, n)
         == [s.(children := Prune(s.children, n - 1))] + (if n - 1 < below then [] else Prune(siblings, n - 1 - below))
  {
  }

  /** The step of the induction: both parts cut, the whole is cut. */
  lemma CutTogether(e: Entry, a: seq<Entry>, b: seq<Entry>, below: seq<Entry>, beside: seq<Entry>, n: nat)
    requires n > 0 && below == a[..Min(n - 1, |a|)]
    requires beside == if n - 1 < |a| then [] else b[..Min(n - 1 - |a|, |b|)]
    ensures var es := [e] + (a + b); [e] + (below + beside) == es[..Min(n, |es|)]
  {
    TakeConcat(e, a, b, Min(n, 1 + |a| + |b|));
  }

  /** The capped list is the outline of the pruned forest. */
  lemma {:induction false} FlattenPrune(syms: seq<Symbol>, depth: int, n: nat)
    ensures var es := Flatten(syms, depth); Flatten(Prune(syms, n), depth) == es[..Min(n, |es|)]
    decreases syms
  {
    if syms != [] && n > 0 {
      var s, siblings := syms[0], syms[1..];
      var below := |Flatten(s.children, depth + 1)|;
      FlattenPrune(s.children, depth + 1, n - 1);
      if n - 1 >= below {
        FlattenPrune(siblings, depth, n - 1 - below);
      }
      FlattenCut(s, siblings, depth, n, below);
      assert syms == [s] + siblings;
    } else {
      PruneNone(syms, depth, n);
    }
  }

  lemma PruneNone(syms: seq<Symbol>, depth: int, n: nat)
    requires syms == [] || n == 0
    ensures Flatten(Prune(syms, n), depth) == [] && Flatten(syms, depth)[..Min(n, |Flatten(syms, depth)|)] == []
  {
  }

  lemma FlattenCut(s: Symbol, siblings: seq<Symbol>, depth: int, n: nat, below: nat)
    requires n > 0
    requires var a := Flatten(s.children, depth + 1);
             |a| == below && Flatten(Prune(s.children, n - 1), depth + 1) == a[..Min(n - 1, below)]
    requires var b := Flatten(siblings, depth);
             n - 1 >= below ==> Flatten(Prune(siblings, n - 1 - below), depth) == b[..Min(n - 1 - below, |b|)]
    ensures var es := Flatten([s] + siblings, depth); Flatten(Prune([s] + siblings, n), depth) == es[..Min(n, |es|)]
  {
    var a, b := Flatten(s.children, depth + 1), Flatten(siblings, depth);
    var kept := if n - 1 < below then [] else Prune(siblings, n - 1 - below);
    FlattenLength(s.children, 1, depth + 1);
    FlattenKept(s, siblings, kept, depth, n);
    CutTogether(EntryOf(s, depth), a, b, Flatten(Prune(s.children, n - 1), depth + 1), Flatten(kept, depth), n);
  }

  lemma FlattenKept(s: Symbol, siblings: seq<Symbol>, kept: seq<Symbol>, depth: int, n: nat)
    requires n > 0 && var below := |Flatten(s.children, 1)|;
                      kept == if n - 1 < below then [] else Prune(siblings, n - 1 - below)
    ensures Flatten([s] + siblings, depth) == [EntryOf(s, depth)] + (Flatten(s.children, depth + 1) + Flatten(siblings, depth))
    ensures Flatten(Prune([s] + siblings, n), depth)
         == [EntryOf(s, depth)] + (Flatten(Prune(s.children, n - 1), depth + 1) + Flatten(kept, depth))
  {
    PruneFirst(s, siblings, n, |Flatten(s.children, 1)|);
    FlattenFirst(s, siblings, depth);
    FlattenFirst(s.(children := Prune(s.children, n - 1)), kept, depth);
  }

  const DEFAULT_MAX_RESULTS: nat := 100

  /** The configured cap, or the default for zero and below. */
  function Cap(maxResults: int): nat {
    if maxResults <= 0 then DEFAULT_MAX_RESULTS else maxResults
  }

  /** The symbols and the truncation mark of an outline result. */
  method GetOutline(symbols: seq<Symbol>, maxResults: int) returns (found: bool, out: seq<Entry>, truncated: bool)
    ensures found <==> symbols != []
    ensures out == Flatten(Prune(symbols, Cap(maxResults)), 0)
    ensures truncated <==> |Flatten(symbols, 0)| > Cap(maxResults)
    ensures !truncated ==> out == Flatten(symbols, 0)
    ensures var all, cap := Flatten(symbols, 0), if maxResults > 0 then maxResults else 100;
            out == (if |all| > cap then all[..cap] else all) && (truncated <==> |all| > cap)
    ensures |out| <= Cap(maxResults) && WellNested(out, 0)
  {
    FlattenPrune(symbols, 0, Cap(maxResults));
    FlattenWellNested(Prune(symbols, Cap(maxResults)), 0);
    if |symbols| == 0 {
      return false, [], false;
    }
    var flat := FlattenSymbols(symbols, 0);
    truncated := false;
    if |flat| > Cap(maxResults) {
      flat, truncated := flat[..Cap(maxResults)], true;
    }
    return true, flat, truncated;
  }

  // ------------------------------------------------------------------- parents

  /** The entry `j` is the parent of `i`: the nearest one before it that is one
      level up, with nothing shallower in between. */
  ghost predicate ParentOf(es: seq<Entry>, j: int, i: int)
    requires 0 <= i < |es|
  {
    && 0 <= j < i && es[j].depth == es[i].depth - 1
    && forall k | j < k < i :: es[k].depth >= es[i].depth
  }

  /** Every prefix of an outline contains the parent of each entry it contains. */
  lemma ParentKept(es: seq<Entry>, depth: int, i: nat)
    requires WellNested(es, depth) && i < |es| && es[i].depth > depth
    ensures exists j :: ParentOf(es, j, i)
  {
    var j := i - 1;
    while es[j].depth >= es[i].depth
      invariant 0 <= j < i
      invariant forall k | j < k < i :: es[k].depth >= es[i].depth
      decreases j
    {
      j := j - 1;
    }
    assert es[j + 1].depth <= es[j].depth + 1;
    assert ParentOf(es, j, i);
  }

  // -------------------------------------------------------- what entries show

  /** The symbols of a forest with their depths, each before its children. */
  function Preorder(syms: seq<Symbol>, depth: int): seq<(Symbol, int)>
    decreases syms
  {
    if syms == [] then []
    else [(syms[0], depth)] + (Preorder(syms[0].children, depth + 1) + Preorder(syms[1..], depth))
  }

  predicate ShowsSymbol(e: Entry, s: Symbol, depth: int) {
    && e.name == s.name && e.kind == s.kind && e.file == s.file && e.range == s.range && e.selRange == s.selRange
    && e.signature == s.signature && e.detail == s.detail && e.depth == depth
  }

  /** The outline has one entry for each symbol of the tree, in preorder, and it shows
      the symbol's fields and its depth. */
  lemma {:induction false} OutlineShows(syms: seq<Symbol>, depth: int)
    ensures |Flatten(syms, depth)| == |Preorder(syms, depth)|
    ensures forall i | 0 <= i < |Flatten(syms, depth)| ::
              ShowsSymbol(Flatten(syms, depth)[i], Preorder(syms, depth)[i].0, Preorder(syms, depth)[i].1)
    decreases syms
  {
    if syms != [] {
      OutlineShows(syms[0].children, depth + 1);
      OutlineShows(syms[1..], depth);
      assert syms == [syms[0]] + syms[1..];
      FlattenFirst(syms[0], syms[1..], depth);
      AllShow(Flatten(syms[0].children, depth + 1), Preorder(syms[0].children, depth + 1),
              Flatten(syms[1..], depth), Preorder(syms[1..], depth));
    }
  }

  ghost predicate Show(es: seq<Entry>, ps: seq<(Symbol, int)>) {
    |es| == |ps| && forall i | 0 <= i < |es| :: ShowsSymbol(es[i], ps[i].0, ps[i].1)
  }

  lemma AllShow(a: seq<Entry>, p: seq<(Symbol, int)>, b: seq<Entry>, q: seq<(Symbol, int)>)
    requires Show(a, p) && Show(b, q)
    ensures Show(a + b, p + q)
  {
  }

  // ----------------------------------------------------------- from the wire

  /** The server's symbols with their depths, each before its children. */
  function WirePreorder(ws: seq<WireSymbol>, depth: int): seq<(WireSymbol, int)>
    decreases ws
  {
    if ws == [] then []
    else [(ws[0], depth)] + (WirePreorder(ws[0].children, depth + 1) + WirePreorder(ws[1..], depth))
  }

  /** An entry shows a symbol of the server's answer about a file. */
  predicate ShowsWire(e: Entry, w: WireSymbol, file: Text, depth: int) {
    && e.name == w.name && e.detail == w.detail && e.file == file && e.signature == "" && KindNamed(w.kind, e.kind)
    && SameRange(w.range, e.range) && SameRange(w.selectionRange, e.selRange) && e.depth == depth
  }

  ghost predicate ShowWire(es: seq<Entry>, ws: seq<(WireSymbol, int)>, file: Text) {
    |es| == |ws| && forall i | 0 <= i < |es| :: ShowsWire(es[i], ws[i].0, file, ws[i].1)
  }

  lemma AllShowWire(a: seq<Entry>, p: seq<(WireSymbol, int)>, b: seq<Entry>, q: seq<(WireSymbol, int)>, file: Text)
    requires ShowWire(a, p, file) && ShowWire(b, q, file)
    ensures ShowWire(a + b, p + q, file)
  {
  }

  lemma FirstShowsWire(w: WireSymbol, file: Text, s: Symbol, depth: int)
    requires CoreOf(w, file, s)
    ensures ShowWire([EntryOf(s, depth)], [(w, depth)], file)
  {
  }

  /** From the server's answer to the outline: one entry for each symbol, in preorder,
      with the symbol's name, detail, kind name, ranges and depth. */
  lemma {:induction false} WireOutlineShows(ws: seq<WireSymbol>, syms: seq<Symbol>, file: Text, depth: int)
    requires AllCoreOf(ws, file, syms)
    ensures |Flatten(syms, depth)| == |WirePreorder(ws, depth)|
    ensures forall i | 0 <= i < |Flatten(syms, depth)| ::
              ShowsWire(Flatten(syms, depth)[i], WirePreorder(ws, depth)[i].0, file, WirePreorder(ws, depth)[i].1)
    decreases ws
  {
    if ws != [] {
      WireOutlineShows(ws[0].children, syms[0].children, file, depth + 1);
      WireOutlineShows(ws[1..], syms[1..], file, depth);
      assert syms == [syms[0]] + syms[1..];
      FlattenFirst(syms[0], syms[1..], depth);
      FirstShowsWire(ws[0], file, syms[0], depth);
      var a, b := Flatten(syms[0].children, depth + 1), Flatten(syms[1..], depth);
      var p, q := WirePreorder(ws[0].children, depth + 1), WirePreorder(ws[1..], depth);
      AllShowWire(a, p, b, q, file);
      AllShowWire([EntryOf(syms[0], depth)], [(ws[0], depth)], a + b, p + q, file);
    }
  }

  lemma {:induction false} SameForestSymbols(vs: seq<WireSymbol>, ws: seq<WireSymbol>, file: Text)
    ensures ToCoreSymbols(vs, file) == ToCoreSymbols(ws, file) <==> SameForest(vs, ws)
    decreases vs
  {
    if |vs| == |ws| && vs != [] {
      var v, w := ToCoreSymbols(vs, file), ToCoreSymbols(ws, file);
      assert v[0] == ToCoreSymbol(vs[0], file) && w[0] == ToCoreSymbol(ws[0], file);
      assert v[1..] == ToCoreSymbols(vs[1..], file) && w[1..] == ToCoreSymbols(ws[1..], file);
      SameForestSymbols(vs[0].children, ws[0].children, file);
      SameForestSymbols(vs[1..], ws[1..], file);
      SameKind(vs[0].kind, ws[0].kind);
      assert v == [v[0]] + v[1..] && w == [w[0]] + w[1..];
    }
  }

  lemma SameKind(j: int, k: int)
    ensures KindName(j) == KindName(k) <==> j == k || (KindName(j) == "unknown" && KindName(k) == "unknown")
  {
    if KindName(j) == KindName(k) {
      KindNamesDistinct(j, k);
    }
  }

  /** All the way from the server's answer: two answers have the same outline if and
      only if they are the same tree, up to kinds without a name. */
  lemma WireOutlineIff(vs: seq<WireSymbol>, ws: seq<WireSymbol>, file: Text)
    ensures Flatten(ToCoreSymbols(vs, file), 0) == Flatten(ToCoreSymbols(ws, file), 0) <==> SameForest(vs, ws)
  {
    SameForestSymbols(vs, ws, file);
    if Flatten(ToCoreSymbols(vs, file), 0) == Flatten(ToCoreSymbols(ws, file), 0) {
      OutlineInjective(ToCoreSymbols(vs, file), ToCoreSymbols(ws, file), 0);
    }
  }
}
