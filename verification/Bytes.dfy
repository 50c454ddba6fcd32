/** Byte strings, as Go strings and []byte values are, with the few string
    operations of the Go library that the modelled code calls. */
module Bytes {
  type Byte = c: char | c as int < 256 witness '/'
  type Text = seq<Byte>

  datatype Option<+T> = None | Some(value: T)

  predicate IsLetter(c: Byte) {
    'a' <= c <= 'z' || 'A' <= c <= 'Z'
  }

  function Lower(c: Byte): Byte {
    if 'A' <= c <= 'Z' then (c as int + 32) as char else c
  }

  function Upper(c: Byte): Byte {
    if 'a' <= c <= 'z' then (c as int - 32) as char else c
  }

  /** strings.EqualFold on ASCII. */
  predicate EqualFold(a: Text, b: Text) {
    |a| == |b| && forall i | 0 <= i < |a| :: Lower(a[i]) == Lower(b[i])
  }

  const UPPER_LETTERS: Text := "ABCDEFGHIJKLMNOPQRSTUVWXYZ"

  const LOWER_LETTERS: Text := "abcdefghijklmnopqrstuvwxyz"

  lemma UpperAt(c: Byte)
    requires 'A' <= c <= 'Z'
    ensures UPPER_LETTERS[c as int - 65] == c && LOWER_LETTERS[c as int - 65] == Lower(c)
  {
  }

  lemma LowerAt(c: Byte)
    requires 'a' <= c <= 'z'
    ensures LOWER_LETTERS[c as int - 97] == c && UPPER_LETTERS[c as int - 97] == Upper(c)
  {
  }

  lemma LettersAt(i: nat)
    requires i < 26
    ensures UPPER_LETTERS[i] as int == 65 + i && LOWER_LETTERS[i] as int == 97 + i
  {
  }

  /** The two cases of each letter; every other byte has no case. */
  lemma CaseOfLetters(i: nat, c: Byte)
    requires i < 26
    ensures Lower(UPPER_LETTERS[i]) == LOWER_LETTERS[i] && Upper(LOWER_LETTERS[i]) == UPPER_LETTERS[i]
    ensures IsLetter(UPPER_LETTERS[i]) && IsLetter(LOWER_LETTERS[i])
    ensures c !in UPPER_LETTERS ==> Lower(c) == c
    ensures c !in LOWER_LETTERS ==> Upper(c) == c
    ensures c !in UPPER_LETTERS && c !in LOWER_LETTERS ==> !IsLetter(c)
  {
    LettersAt(i);
    if 'A' <= c <= 'Z' {
      UpperAt(c);
    }
    if 'a' <= c <= 'z' {
      LowerAt(c);
    }
  }

  /** The same byte, or one letter in its two cases. */
  predicate SameLetter(c: Byte, d: Byte) {
    || c == d
    || exists i :: 0 <= i < 26 && (|| (c == UPPER_LETTERS[i] && d == LOWER_LETTERS[i])
                                   || (c == LOWER_LETTERS[i] && d == UPPER_LETTERS[i]))
  }

  /** Texts are equal under folding if and only if they have the same letters, case
      apart, and the same other bytes. */
  lemma EqualFoldIff(a: Text, b: Text)
    ensures EqualFold(a, b) <==> |a| == |b| && forall i | 0 <= i < |a| :: SameLetter(a[i], b[i])
  {
    forall i | 0 <= i < |a| && |a| == |b| ensures Lower(a[i]) == Lower(b[i]) <==> SameLetter(a[i], b[i]) {
      SameLowerIff(a[i], b[i]);
    }
  }

  lemma SameLowerIff(c: Byte, d: Byte)
    ensures Lower(c) == Lower(d) <==> SameLetter(c, d)
  {
    if Lower(c) == Lower(d) && c != d {
      if 'A' <= c <= 'Z' {
        UpperAt(c);
      } else {
        LowerAt(c);
      }
    }
    if Lower(c) != Lower(d) && SameLetter(c, d) {
      var i :| 0 <= i < 26 && (|| (c == UPPER_LETTERS[i] && d == LOWER_LETTERS[i])
                               || (c == LOWER_LETTERS[i] && d == UPPER_LETTERS[i]));
      CaseOfLetters(i, c);
      assert false;
    }
  }

  predicate HasPrefix(s: Text, prefix: Text) {
    prefix <= s
  }

  /** strings.TrimPrefix. */
  function TrimPrefix(s: Text, prefix: Text): Text {
    if prefix <= s then s[|prefix|..] else s
  }

  /** The index of the first `c` in `s`, or `|s|` when there is none. */
  function IndexOf(s: Text, c: Byte): (i: nat)
    ensures i <= |s|
    ensures forall j | 0 <= j < i :: s[j] != c
    ensures i < |s| ==> s[i] == c
  {
    if s == "" || s[0] == c then 0 else 1 + IndexOf(s[1..], c)
  }

  lemma IndexOfAt(s: Text, c: Byte, i: nat)
    requires i < |s| && s[i] == c
    requires forall j | 0 <= j < i :: s[j] != c
    ensures IndexOf(s, c) == i
  {
  }

  lemma SplitAt<T>(a: seq<T>, b: seq<T>)
    ensures (a + b)[..|a|] == a && (a + b)[|a|..] == b
  {
  }

  lemma DropInside<T>(a: seq<T>, b: seq<T>, n: nat)
    requires n <= |a|
    ensures (a + b)[..n] == a[..n] && (a + b)[n..] == a[n..] + b
  {
  }

  /** All of `chunks`, one after another. */
  function Concat(chunks: seq<Text>): Text {
    if chunks == [] then "" else Concat(chunks[..|chunks| - 1]) + chunks[|chunks| - 1]
  }

  lemma ConcatLast(a: seq<Text>, z: Text)
    ensures Concat(a + [z]) == Concat(a) + z
  {
    assert (a + [z])[..|a|] == a;
  }

  lemma Associate<T>(a: seq<T>, b: seq<T>, c: seq<T>)
    ensures (a + b) + c == a + (b + c)
  {
  }

  lemma {:induction false} ConcatAppend(a: seq<Text>, b: seq<Text>)
    ensures Concat(a + b) == Concat(a) + Concat(b)
  {
    if b == [] {
      assert a + b == a;
    } else {
      var front, z := b[..|b| - 1], b[|b| - 1];
      ConcatAppend(a, front);
      assert b == front + [z];
      Associate(a, front, [z]);
      ConcatLast(a + front, z);
      ConcatLast(front, z);
      Associate(Concat(a), Concat(front), z);
    }
  }
}
