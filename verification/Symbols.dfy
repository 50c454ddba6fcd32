/** Symbol trees: what the language server sends, what the core works with, and the
    conversion between the two. */
module Symbols {
  import opened Bytes

  datatype Position = Position(line: int, character: int)

  datatype Range = Range(start: Position, end: Position)

  datatype Symbol = Symbol(
    name: Text, kind: string, file: Text, range: Range, selRange: Range,
    signature: Text, detail: Text, children: seq<Symbol>)

  datatype LspPosition = LspPosition(line: int, character: int)

  datatype LspRange = LspRange(start: LspPosition, end: LspPosition)

  datatype WireSymbol = WireSymbol(
    name: Text, detail: Text, kind: int, range: LspRange, selectionRange: LspRange, children: seq<WireSymbol>)

  const KIND_NAMES: seq<string> := [
    "file", "module", "namespace", "package", "class", "method", "property", "field", "constructor",
    "enum", "interface", "function", "variable", "constant", "string", "number", "boolean", "array",
    "object", "key", "null", "enummember", "struct", "event", "operator", "typeparameter"]

  function KindName(k: int): string {
    if 1 <= k <= 26 then KIND_NAMES[k - 1] else "unknown"
  }

  function ToCoreRange(r: LspRange): Range {
    Range(Position(r.start.line, r.start.character), Position(r.end.line, r.end.character))
  }

  function ToCoreSymbol(w: WireSymbol, file: Text): Symbol
    decreases w, 1
  {
    Symbol(w.name, KindName(w.kind), file, ToCoreRange(w.range), ToCoreRange(w.selectionRange), "", w.detail,
           ToCoreSymbols(w.children, file))
  }

  function ToCoreSymbols(ws: seq<WireSymbol>, file: Text): (syms: seq<Symbol>)
    ensures |syms| == |ws|
    decreases ws, 0
  {
    if ws == [] then [] else [ToCoreSymbol(ws[0], file)] + ToCoreSymbols(ws[1..], file)
  }

  // ------------------------------------------------- what a conversion preserves

  /** The names of the kinds in the protocol's enumeration. */
  predicate KindNamed(k: int, name: string) {
    || (k == 1 && name == "file") || (k == 2 && name == "module") || (k == 3 && name == "namespace")
    || (k == 4 && name == "package") || (k == 5 && name == "class") || (k == 6 && name == "method")
    || (k == 7 && name == "property") || (k == 8 && name == "field") || (k == 9 && name == "constructor")
    || (k == 10 && name == "enum") || (k == 11 && name == "interface") || (k == 12 && name == "function")
    || (k == 13 && name == "variable") || (k == 14 && name == "constant") || (k == 15 && name == "string")
    || (k == 16 && name == "number") || (k == 17 && name == "boolean") || (k == 18 && name == "array")
    || (k == 19 && name == "object") || (k == 20 && name == "key") || (k == 21 && name == "null")
    || (k == 22 && name == "enummember") || (k == 23 && name == "struct") || (k == 24 && name == "event")
    || (k == 25 && name == "operator") || (k == 26 && name == "typeparameter")
    || ((k < 1 || k > 26) && name == "unknown")
  }

  predicate SameRange(w: LspRange, r: Range) {
    && r.start.line == w.start.line && r.start.character == w.start.character
    && r.end.line == w.end.line && r.end.character == w.end.character
  }

  /** The core symbol `s` says of the file what the server's symbol `w` says, field by
      field and child by child. */
  predicate CoreOf(w: WireSymbol, file: Text, s: Symbol)
    decreases w
  {
    && s.name == w.name && s.detail == w.detail && s.file == file && s.signature == "" && KindNamed(w.kind, s.kind)
    && SameRange(w.range, s.range) && SameRange(w.selectionRange, s.selRange)
    && |s.children| == |w.children|
    && forall i | 0 <= i < |w.children| :: CoreOf(w.children[i], file, s.children[i])
  }

  /** As many symbols as the server sent, and each of them says what its own says. */
  ghost predicate AllCoreOf(ws: seq<WireSymbol>, file: Text, syms: seq<Symbol>) {
    |syms| == |ws| && forall i | 0 <= i < |ws| :: CoreOf(ws[i], file, syms[i])
  }

  lemma AllToCore(ws: seq<WireSymbol>, file: Text, syms: seq<Symbol>)
    requires syms == ToCoreSymbols(ws, file)
    ensures AllCoreOf(ws, file, syms)
  {
    ToCoreAll(ws, file);
  }

  lemma KindNameIs(k: int)
    ensures KindNamed(k, KindName(k))
  {
    if 1 <= k <= 13 {
      LowKind(k);
    } else if 14 <= k <= 26 {
      HighKind(k);
    }
  }

  lemma LowKind(k: int)
    requires 1 <= k <= 13
    ensures KindNamed(k, KindName(k))
  {
  }

  lemma HighKind(k: int)
    requires 14 <= k <= 26
    ensures KindNamed(k, KindName(k))
  {
  }

  /** The conversion of any tree says what the tree says. */
  lemma {:induction false} ToCoreIs(w: WireSymbol, file: Text)
    ensures CoreOf(w, file, ToCoreSymbol(w, file))
    decreases w, 1
  {
    KindNameIs(w.kind);
    ToCoreAll(w.children, file);
  }

  lemma {:induction false} ToCoreAll(ws: seq<WireSymbol>, file: Text)
    ensures forall i | 0 <= i < |ws| :: CoreOf(ws[i], file, ToCoreSymbols(ws, file)[i])
    decreases ws, 0
  {
    if ws != [] {
      ToCoreIs(ws[0], file);
      ToCoreAll(ws[1..], file);
      assert forall i | 0 < i < |ws| :: ToCoreSymbols(ws, file)[i] == ToCoreSymbols(ws[1..], file)[i - 1];
    }
  }

  /** The loop over a server's answer to a documentSymbol request: every symbol is
      converted, in order. */
  method DocumentSymbols(ws: seq<WireSymbol>, file: Text) returns (out: seq<Symbol>)
    ensures out == ToCoreSymbols(ws, file)
    ensures AllCoreOf(ws, file, out)
  {
    out := [];
    assert ws[0..] == ws;
    for i := 0 to |ws|
      invariant out + ToCoreSymbols(ws[i..], file) == ToCoreSymbols(ws, file)
    {
      assert ws[i..][1..] == ws[i + 1..];
      ghost var rest := ToCoreSymbols(ws[i + 1..], file);
      assert out + ([ToCoreSymbol(ws[i], file)] + rest) == out + [ToCoreSymbol(ws[i], file)] + rest;
      out := out + [ToCoreSymbol(ws[i], file)];
    }
    AllToCore(ws, file, out);
  }

  /** Two wire trees that differ at most in kinds that have no name. */
  predicate SameTree(v: WireSymbol, w: WireSymbol)
    decreases v, 1
  {
    && v.name == w.name && v.detail == w.detail && v.range == w.range && v.selectionRange == w.selectionRange
    && (v.kind == w.kind || (KindName(v.kind) == "unknown" && KindName(w.kind) == "unknown"))
    && SameForest(v.children, w.children)
  }

  predicate SameForest(vs: seq<WireSymbol>, ws: seq<WireSymbol>)
    decreases vs, 0
  {
    |vs| == |ws| && (vs == [] || (SameTree(vs[0], ws[0]) && SameForest(vs[1..], ws[1..])))
  }

  lemma KindNamesDistinct(j: int, k: int)
    requires KindName(j) == KindName(k)
    ensures j == k || (KindName(j) == "unknown" && KindName(k) == "unknown")
  {
    if 1 <= j < k <= 26 {
      NamesDiffer(j, k);
    } else if 1 <= k < j <= 26 {
      NamesDiffer(k, j);
    } else if j != k && (1 <= j <= 26 || 1 <= k <= 26) {
      NotUnknown(if 1 <= j <= 26 then j else k);
    }
  }

  lemma NotUnknown(k: int)
    requires 1 <= k <= 26
    ensures KindName(k) != "unknown"
  {
  }

  lemma NamesDiffer(j: int, k: int)
    requires 1 <= j < k <= 26
    ensures KindName(j) != KindName(k)
  {
  }
}
