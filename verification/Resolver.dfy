/** From a symbol name, and possibly a line, to the position to ask about: the
    second walk over the symbol tree, against a scan of the outline. */
module Resolver {
  import opened Bytes
  import opened Symbols
  import opened Outlines

  // -------------------------------------------------------------- the scan

  predicate Named(e: Entry, name: Text) {
    e.name == name
  }

  predicate NamedOn(e: Entry, name: Text, line: Option<int>) {
    e.name == name && line.Some? && e.selRange.start.line == line.value
  }

  /** The first entry with the name, if any. */
  function FirstNamed(es: seq<Entry>, name: Text): Option<Entry> {
    if es == [] then None
    else if Named(es[0], name) then Some(es[0])
    else FirstNamed(es[1..], name)
  }

  /** The first entry with the name that starts on the line, if any. */
  function FirstOnLine(es: seq<Entry>, name: Text, line: Option<int>): Option<Entry> {
    if es == [] then None
    else if NamedOn(es[0], name, line) then Some(es[0])
    else FirstOnLine(es[1..], name, line)
  }

  function Scan(es: seq<Entry>, name: Text, line: Option<int>): Option<Position> {
    var onLine, first := FirstOnLine(es, name, line), FirstNamed(es, name);
    if onLine.Some? then Some(onLine.value.selRange.start)
    else if first.Some? then Some(first.value.selRange.start)
    else None
  }

  /** `a`, or `b` when there is no `a`. */
  function OrElse<T>(a: Option<T>, b: Option<T>): Option<T> {
    if a.Some? then a else b
  }

  lemma {:induction false} FirstNamedAppend(a: seq<Entry>, b: seq<Entry>, name: Text)
    ensures FirstNamed(a + b, name) == OrElse(FirstNamed(a, name), FirstNamed(b, name))
  {
    if a == [] {
      assert a + b == b;
    } else {
      assert (a + b)[1..] == a[1..] + b;
      FirstNamedAppend(a[1..], b, name);
    }
  }

  lemma {:induction false} FirstOnLineAppend(a: seq<Entry>, b: seq<Entry>, name: Text, line: Option<int>)
    ensures FirstOnLine(a + b, name, line) == OrElse(FirstOnLine(a, name, line), FirstOnLine(b, name, line))
  {
    if a == [] {
      assert a + b == b;
    } else {
      assert (a + b)[1..] == a[1..] + b;
      FirstOnLineAppend(a[1..], b, name, line);
    }
  }

  // ------------------------------------------------------------ the mutable walk

  function StartOf(e: Option<Entry>): Option<Position> {
    match e case None => None case Some(x) => Some(x.selRange.start)
  }

  /** The recursive closure of `resolveSymbolPosition` with the two variables it
      assigns. */
  class Walker {
    const name: Text
    const line: Option<int>
    var first: Option<Symbol>
    var lineMatch: Option<Symbol>

    constructor (name: Text, line: Option<int>)
      ensures first == None && lineMatch == None && this.name == name && this.line == line
    {
      this.name, this.line := name, line;
      first, lineMatch := None, None;
    }

    function FirstStart(): Option<Position>
      reads this
    {
      match first case None => None case Some(s) => Some(s.selRange.start)
    }

    function LineStart(): Option<Position>
      reads this
    {
      match lineMatch case None => None case Some(s) => Some(s.selRange.start)
    }

    /** One symbol, before its children. */
    method Visit(s: Symbol, ghost depth: int)
      modifies this
      ensures FirstStart() == OrElse(old(FirstStart()), StartOf(FirstNamed([EntryOf(s, depth)], name)))
      ensures LineStart() == OrElse(old(LineStart()), StartOf(FirstOnLine([EntryOf(s, depth)], name, line)))
    {
      assert [EntryOf(s, depth)][1..] == [];
      if s.name == name {
        if first == None {
          first := Some(s);
        }
        if line != None && lineMatch == None && s.selRange.start.line == line.value {
          lineMatch := Some(s);
        }
      }
    }

    method Walk(syms: seq<Symbol>, ghost depth: int)
      modifies this
      ensures FirstStart() == OrElse(old(FirstStart()), StartOf(FirstNamed(Flatten(syms, depth), name)))
      ensures LineStart() == OrElse(old(LineStart()), StartOf(FirstOnLine(Flatten(syms, depth), name, line)))
      decreases syms
    {
      assert syms[0..] == syms;
      for i := 0 to |syms|
        invariant OrElse(FirstStart(), StartOf(FirstNamed(Flatten(syms[i..], depth), name)))
               == OrElse(old(FirstStart()), StartOf(FirstNamed(Flatten(syms, depth), name)))
        invariant OrElse(LineStart(), StartOf(FirstOnLine(Flatten(syms[i..], depth), name, line)))
               == OrElse(old(LineStart()), StartOf(FirstOnLine(Flatten(syms, depth), name, line)))
      {
        Unfold(syms, i, depth, name, line);
        Visit(syms[i], depth);
        if |syms[i].children| > 0 {
          Walk(syms[i].children, depth + 1);
        }
      }
      assert syms[|syms|..] == [];
    }
  }

  /** A forest's matches are those of its first symbol, else of that symbol's
      children, else of its siblings. */
  lemma Unfold(syms: seq<Symbol>, i: nat, depth: int, name: Text, line: Option<int>)
    requires i < |syms|
    ensures var e, below, rest := EntryOf(syms[i], depth), Flatten(syms[i].children, depth + 1), Flatten(syms[i + 1..], depth);
            && FirstNamed(Flatten(syms[i..], depth), name)
               == OrElse(FirstNamed([e], name), OrElse(FirstNamed(below, name), FirstNamed(rest, name)))
            && FirstOnLine(Flatten(syms[i..], depth), name, line)
               == OrElse(FirstOnLine([e], name, line), OrElse(FirstOnLine(below, name, line), FirstOnLine(rest, name, line)))
  {
    var e, below, rest := EntryOf(syms[i], depth), Flatten(syms[i].children, depth + 1), Flatten(syms[i + 1..], depth);
    assert syms[i..] == [syms[i]] + syms[i + 1..];
    FlattenFirst(syms[i], syms[i + 1..], depth);
    FirstNamedAppend([e], below + rest, name);
    FirstNamedAppend(below, rest, name);
    FirstOnLineAppend([e], below + rest, name, line);
    FirstOnLineAppend(below, rest, name, line);
  }

  method ResolveSymbolPosition(symbols: seq<Symbol>, name: Text, line: Option<int>) returns (pos: Option<Position>)
    ensures pos == Scan(Flatten(symbols, 0), name, line)
    ensures ResolvesTo(Flatten(symbols, 0), name, line, pos)
  {
    ScanResolves(Flatten(symbols, 0), name, line);
    var w := new Walker(name, line);
    w.Walk(symbols, 0);
    if w.lineMatch != None {
      return Some(w.lineMatch.value.selRange.start);
    }
    if w.first != None {
      return Some(w.first.value.selRange.start);
    }
    return None;
  }

  // ------------------------------------------------------------- what it finds

  lemma {:induction false} FirstNamedIs(es: seq<Entry>, name: Text)
    ensures var r := FirstNamed(es, name);
            if r.None? then forall i | 0 <= i < |es| :: es[i].name != name
            else exists i :: 0 <= i < |es| && es[i] == r.value && es[i].name == name && forall j | 0 <= j < i :: es[j].name != name
  {
    if es != [] && !Named(es[0], name) {
      FirstNamedIs(es[1..], name);
      var r := FirstNamed(es[1..], name);
      if r.Some? {
        var i :| 0 <= i < |es[1..]| && es[1..][i] == r.value && es[1..][i].name == name
                 && forall j | 0 <= j < i :: es[1..][j].name != name;
        assert es[i + 1] == r.value;
        forall j | 0 <= j < i + 1 ensures es[j].name != name {
          assert j > 0 ==> es[j] == es[1..][j - 1];
        }
      } else {
        assert forall i | 0 < i < |es| :: es[i] == es[1..][i - 1];
      }
    }
  }

  lemma {:induction false} FirstOnLineIs(es: seq<Entry>, name: Text, line: Option<int>)
    ensures var r := FirstOnLine(es, name, line);
            if r.None? then forall i | 0 <= i < |es| :: !NamedOn(es[i], name, line)
            else r.value in es && NamedOn(r.value, name, line)
  {
    if es != [] && !NamedOn(es[0], name, line) {
      FirstOnLineIs(es[1..], name, line);
      assert forall i | 0 < i < |es| :: es[i] == es[1..][i - 1];
    }
  }

  /** A name resolves exactly when the outline has it; with a line on which the
      outline has it, to a position on that line. */
  lemma ScanFinds(es: seq<Entry>, name: Text, line: Option<int>)
    ensures var r := Scan(es, name, line);
            && (r.Some? <==> exists i :: 0 <= i < |es| && es[i].name == name)
            && (r.Some? ==> exists i :: 0 <= i < |es| && es[i].name == name && es[i].selRange.start == r.value)
            && (line.Some? && (exists i :: 0 <= i < |es| && NamedOn(es[i], name, line)) ==>
                r.Some? && r.value.line == line.value)
  {
    FirstNamedIs(es, name);
    FirstOnLineIs(es, name, line);
  }

  predicate Matches(e: Entry, name: Text, line: Option<int>) {
    e.name == name && (line.Some? ==> e.selRange.start.line == line.value)
  }

  /** The entry `i` is the first with the name and, if one is given, on the line. */
  ghost predicate FirstMatch(es: seq<Entry>, i: int, name: Text, line: Option<int>) {
    0 <= i < |es| && Matches(es[i], name, line) && forall j | 0 <= j < i :: !Matches(es[j], name, line)
  }

  /** The position a name resolves to: where the name of the first entry on the line
      stands; without one, of the first entry with the name; without one, none. */
  ghost predicate ResolvesTo(es: seq<Entry>, name: Text, line: Option<int>, r: Option<Position>) {
    if line.Some? && exists i :: FirstMatch(es, i, name, line) then
      exists i :: FirstMatch(es, i, name, line) && r == Some(es[i].selRange.start)
    else if exists i :: FirstMatch(es, i, name, None) then
      exists i :: FirstMatch(es, i, name, None) && r == Some(es[i].selRange.start)
    else
      r == None && forall i | 0 <= i < |es| :: es[i].name != name
  }

  lemma {:induction false} FirstOnLineAt(es: seq<Entry>, name: Text, line: Option<int>)
    requires line.Some?
    ensures var r := FirstOnLine(es, name, line);
            if r.None? then forall i | 0 <= i < |es| :: !Matches(es[i], name, line)
            else exists i :: FirstMatch(es, i, name, line) && es[i] == r.value
  {
    if es != [] {
      if NamedOn(es[0], name, line) {
        assert FirstMatch(es, 0, name, line);
      } else {
        FirstOnLineAt(es[1..], name, line);
        if FirstOnLine(es[1..], name, line).Some? {
          var i :| FirstMatch(es[1..], i, name, line) && es[1..][i] == FirstOnLine(es[1..], name, line).value;
          LaterMatch(es, i, name, line);
        } else {
          assert forall i | 0 < i < |es| :: es[i] == es[1..][i - 1];
        }
      }
    }
  }

  lemma LaterMatch(es: seq<Entry>, i: int, name: Text, line: Option<int>)
    requires es != [] && FirstMatch(es[1..], i, name, line) && !Matches(es[0], name, line)
    ensures FirstMatch(es, i + 1, name, line) && es[i + 1] == es[1..][i]
  {
    forall j | 0 <= j < i + 1 ensures !Matches(es[j], name, line) {
      assert j > 0 ==> es[j] == es[1..][j - 1];
    }
  }

  lemma FirstNamedAt(es: seq<Entry>, name: Text)
    ensures var r := FirstNamed(es, name);
            if r.None? then forall i | 0 <= i < |es| :: es[i].name != name
            else exists i :: FirstMatch(es, i, name, None) && es[i] == r.value
  {
    FirstNamedIs(es, name);
    if FirstNamed(es, name).Some? {
      var i :| 0 <= i < |es| && es[i] == FirstNamed(es, name).value && es[i].name == name
               && forall j | 0 <= j < i :: es[j].name != name;
      assert FirstMatch(es, i, name, None);
    }
  }

  /** The scan is what resolving a name means. */
  lemma ScanResolves(es: seq<Entry>, name: Text, line: Option<int>)
    ensures ResolvesTo(es, name, line, Scan(es, name, line))
  {
    FirstNamedAt(es, name);
    if line.Some? {
      FirstOnLineAt(es, name, line);
    } else {
      FirstOnLineIs(es, name, line);
    }
  }

  /** Whatever the outline shows, its name and line lead back to that line. */
  method ResolveOutlineEntry(symbols: seq<Symbol>, i: nat) returns (pos: Option<Position>)
    requires i < |Flatten(symbols, 0)|
    ensures pos.Some? && pos.value.line == Flatten(symbols, 0)[i].selRange.start.line
  {
    var es := FlattenSymbols(symbols, 0);
    var e := es[i];
    ScanFinds(es, e.name, Some(e.selRange.start.line));
    assert NamedOn(es[i], e.name, Some(e.selRange.start.line));
    pos := ResolveSymbolPosition(symbols, e.name, Some(e.selRange.start.line));
  }
}
