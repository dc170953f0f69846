/**
 * String helpers shared by the model: ASCII case folding and whitespace, substring tests, joining and
 * splitting, and the decimal text of natural numbers. Python's `str.lower`/`str.strip` and SQL `lower`
 * also fold and strip non-ASCII characters; this model covers ASCII text only.
 */
module Text {
  import opened Wrappers

  /**
   * Whitespace as `str.strip()` removes it, restricted to ASCII: space, tab, LF, VT, FF, CR, and the four
   * separators FS, GS, RS, US, which Python also counts as whitespace.
   */
  predicate IsSpace(c: char) {
    c == ' ' || ('\t' <= c <= '\r') || ('\U{1C}' <= c <= '\U{1F}')
  }

  function LowerChar(c: char): char {
    if 'A' <= c <= 'Z' then (c as int + 32) as char else c
  }

  /** `s.lower()` on ASCII text. */
  function Lower(s: string): (r: string)
    ensures |r| == |s|
    ensures forall i :: 0 <= i < |s| ==> r[i] == LowerChar(s[i])
  {
    if s == [] then [] else [LowerChar(s[0])] + Lower(s[1..])
  }

  function TrimLeft(s: string): (r: string)
    ensures |r| <= |s| && r == s[|s| - |r|..]
    ensures r == [] || !IsSpace(r[0])
    ensures forall i :: 0 <= i < |s| - |r| ==> IsSpace(s[i])
  {
    if s != [] && IsSpace(s[0]) then TrimLeft(s[1..]) else s
  }

  function TrimRight(s: string): (r: string)
    ensures |r| <= |s| && r == s[..|r|]
    ensures r == [] || !IsSpace(r[|r| - 1])
    ensures forall i :: |r| <= i < |s| ==> IsSpace(s[i])
  {
    if s != [] && IsSpace(s[|s| - 1]) then TrimRight(s[..|s| - 1]) else s
  }

  /** `s.strip()`: drop leading and trailing whitespace; `StripDropsOnlyWhitespace` says what is dropped. */
  function Strip(s: string): (r: string)
    ensures r == [] || (!IsSpace(r[0]) && !IsSpace(r[|r| - 1]))
    ensures |r| <= |s|
  {
    TrimRight(TrimLeft(s))
  }

  /**
   * `s.strip()` is the middle of `s`: everything dropped before and after it is whitespace. With the end
   * conditions of `Strip` this fixes the result: the longest whitespace-free-ended middle.
   */
  lemma StripDropsOnlyWhitespace(s: string)
    ensures exists a, b :: (0 <= a <= b <= |s| && Strip(s) == s[a..b]
      && (forall i :: 0 <= i < a ==> IsSpace(s[i])) && (forall i :: b <= i < |s| ==> IsSpace(s[i])))
  {
    var t := TrimLeft(s);
    var a := |s| - |t|;
    var r := TrimRight(t);
    assert r == s[a..a + |r|];
    forall i | a + |r| <= i < |s| ensures IsSpace(s[i]) {
      assert s[i] == t[i - a];
    }
  }

  lemma {:induction false} TrimLeftNoOp(s: string)
    requires s == [] || !IsSpace(s[0])
    ensures TrimLeft(s) == s
  {
  }

  lemma {:induction false} TrimRightNoOp(s: string)
    requires s == [] || !IsSpace(s[|s| - 1])
    ensures TrimRight(s) == s
  {
  }

  /** Stripping twice is stripping once. */
  lemma StripIdempotent(s: string)
    ensures Strip(Strip(s)) == Strip(s)
  {
    var r := Strip(s);
    TrimLeftNoOp(r);
    TrimRightNoOp(r);
  }

  /** `sub in s` for strings. */
  predicate Contains(s: string, sub: string) {
    exists i | 0 <= i <= |s| - |sub| :: OccursAt(s, sub, i)
  }

  /** `sub` occurs in `s` starting at index `i`. */
  predicate OccursAt(s: string, sub: string, i: int) {
    0 <= i <= |s| - |sub| && s[i..i + |sub|] == sub
  }

  /** `s.find(sub, start)` for a non-empty `sub`: the first occurrence at or after `start`, if any. */
  function FindFrom(s: string, sub: string, start: nat): (r: Option<nat>)
    requires sub != []
    ensures r.Some? ==> start <= r.value && OccursAt(s, sub, r.value)
    ensures r.Some? ==> forall j :: start <= j < r.value ==> !OccursAt(s, sub, j)
    ensures r.None? ==> forall j :: start <= j ==> !OccursAt(s, sub, j)
    decreases |s| - start
  {
    if start + |sub| > |s| then None
    else if s[start..start + |sub|] == sub then Some(start)
    else FindFrom(s, sub, start + 1)
  }

  /**
   * `s.split(sep)[-1]` for a non-empty separator: the occurrences are found left to right without
   * overlapping, and the last piece is what follows the last one found (all of `s` when there is none).
   */
  function LastPiece(s: string, sep: string): (r: string)
    requires sep != []
    ensures |r| <= |s|
    decreases |s|
  {
    match FindFrom(s, sep, 0)
    case None => s
    case Some(i) => LastPiece(s[i + |sep|..], sep)
  }

  /** `sub` occurs in `s` exactly when searching from the start finds it. */
  lemma FindFromStart(s: string, sub: string)
    requires sub != []
    ensures Contains(s, sub) <==> FindFrom(s, sub, 0).Some?
  {
    if FindFrom(s, sub, 0).Some? {
      assert OccursAt(s, sub, FindFrom(s, sub, 0).value);
    }
  }

  /** The last piece is a suffix of the string. */
  lemma {:induction false} LastPieceIsSuffix(s: string, sep: string)
    requires sep != []
    ensures EndsWith(s, LastPiece(s, sep))
    decreases |s|
  {
    match FindFrom(s, sep, 0)
    case None =>
    case Some(i) =>
      var rest := s[i + |sep|..];
      LastPieceIsSuffix(rest, sep);
      assert s == s[..i + |sep|] + rest;
      EndsWithAppend(s[..i + |sep|], rest, LastPiece(rest, sep));
  }

  /** The last piece holds no separator. */
  lemma {:induction false} LastPieceHasNoSeparator(s: string, sep: string)
    requires sep != []
    ensures !Contains(LastPiece(s, sep), sep)
    decreases |s|
  {
    FindFromStart(s, sep);
    match FindFrom(s, sep, 0)
    case None =>
    case Some(i) =>
      LastPieceHasNoSeparator(s[i + |sep|..], sep);
  }

  /** A string without the separator is its own last piece. */
  lemma LastPieceWithoutSeparator(s: string, sep: string)
    requires sep != [] && !Contains(s, sep)
    ensures LastPiece(s, sep) == s
  {
    FindFromStart(s, sep);
  }

  /** In a string with the separator, the last piece directly follows one. */
  lemma {:induction false} LastPieceFollowsSeparator(s: string, sep: string)
    requires sep != [] && Contains(s, sep)
    ensures FollowsSeparator(s, LastPiece(s, sep), sep)
    decreases |s|
  {
    FindFromStart(s, sep);
    var k := FindFrom(s, sep, 0).value + |sep|;
    var rest := s[k..];
    var r := LastPiece(rest, sep);
    assert LastPiece(s, sep) == r;
    LastPieceIsSuffix(rest, sep);
    if Contains(rest, sep) {
      LastPieceFollowsSeparator(rest, sep);
    } else {
      LastPieceWithoutSeparator(rest, sep);
    }
    PieceAfterSeparator(s, k, r, sep);
  }

  /** `r` ends `s` right after an occurrence of `sep`. */
  predicate FollowsSeparator(s: string, r: string, sep: string) {
    |r| <= |s| && EndsWith(s[..|s| - |r|], sep)
  }

  /** A piece at the end of `s[k..]` that follows a separator there, or is all of it, follows one in `s`. */
  lemma PieceAfterSeparator(s: string, k: nat, r: string, sep: string)
    requires |sep| <= k <= |s| && s[k - |sep|..k] == sep
    requires EndsWith(s[k..], r)
    requires r == s[k..] || FollowsSeparator(s[k..], r, sep)
    ensures FollowsSeparator(s, r, sep)
  {
    if r == s[k..] {
      assert s[..|s| - |r|] == s[..k];
      assert s[..k][k - |sep|..] == s[k - |sep|..k];
    } else {
      InnerPieceAfterSeparator(s, k, r, sep);
    }
  }

  lemma InnerPieceAfterSeparator(s: string, k: nat, r: string, sep: string)
    requires k <= |s| && EndsWith(s[k..], r) && FollowsSeparator(s[k..], r, sep)
    ensures FollowsSeparator(s, r, sep)
  {
    var head, rest := s[..k], s[k..];
    assert s[..|s| - |r|] == head + rest[..|rest| - |r|];
    EndsWithAppend(head, rest[..|rest| - |r|], sep);
  }

  lemma EndsWithAppend(x: string, y: string, suffix: string)
    requires EndsWith(y, suffix)
    ensures EndsWith(x + y, suffix)
  {
    assert (x + y)[|x + y| - |suffix|..] == y[|y| - |suffix|..];
  }

  predicate StartsWith(s: string, prefix: string) {
    |prefix| <= |s| && s[..|prefix|] == prefix
  }

  predicate EndsWith(s: string, suffix: string) {
    |suffix| <= |s| && s[|s| - |suffix|..] == suffix
  }

  /** `parts.join(sep)` / `sep.join(parts)`. */
  function Join(parts: seq<string>, sep: string): string {
    if parts == [] then ""
    else if |parts| == 1 then parts[0]
    else parts[0] + sep + Join(parts[1..], sep)
  }

  /** A joined list of one or more parts begins with the first part. */
  lemma {:induction false} JoinStartsWithFirst(parts: seq<string>, sep: string)
    requires parts != []
    ensures StartsWith(Join(parts, sep), parts[0])
  {
  }

  /** `s.split(c)` for a one-character separator: the pieces between occurrences of `c`, at least one. */
  function Split(s: string, c: char): (pieces: seq<string>)
    ensures |pieces| >= 1
    ensures forall k :: 0 <= k < |pieces| ==> c !in pieces[k]
    decreases |s|
  {
    if c !in s then [s]
    else
      var i := IndexOfChar(s, c);
      [s[..i]] + Split(s[i + 1..], c)
  }

  function IndexOfChar(s: string, c: char): (i: nat)
    requires c in s
    ensures i < |s| && s[i] == c && c !in s[..i]
  {
    if s[0] == c then 0 else 1 + IndexOfChar(s[1..], c)
  }

  /** Joining the pieces of a split with the separator gives back the string. */
  lemma {:induction false} SplitJoin(s: string, c: char)
    ensures Join(Split(s, c), [c]) == s
    decreases |s|
  {
    if c in s {
      var i := IndexOfChar(s, c);
      var rest := s[i + 1..];
      var parts := Split(s, c);
      assert parts == [s[..i]] + Split(rest, c);
      assert parts[1..] == Split(rest, c);
      SplitJoin(rest, c);
      assert Join(parts, [c]) == s[..i] + [c] + rest;
      assert s == s[..i] + [c] + rest;
    }
  }

  /** Splitting a join of separator-free pieces gives back the pieces. */
  lemma {:induction false} JoinSplit(parts: seq<string>, c: char)
    requires |parts| >= 1 && forall k :: 0 <= k < |parts| ==> c !in parts[k]
    ensures Split(Join(parts, [c]), c) == parts
    decreases |parts|
  {
    if |parts| > 1 {
      var head, rest := parts[0], Join(parts[1..], [c]);
      var s := Join(parts, [c]);
      assert s == head + [c] + rest;
      assert s[|head|] == c;
      assert s[..|head|] == head;
      assert IndexOfChar(s, c) == |head|;
      assert s[|head| + 1..] == rest;
      JoinSplit(parts[1..], c);
    }
  }

  /** Stripping keeps a slice of the string, so it adds no character. */
  lemma StripKeepsOut(s: string, c: char)
    requires c !in s
    ensures c !in Strip(s)
  {
    var t := TrimLeft(s);
    var r := TrimRight(t);
    forall i | 0 <= i < |r| ensures r[i] != c {
      assert r[i] == t[i] == s[|s| - |t| + i];
    }
  }

  /** A string whose first character is not whitespace keeps something when stripped. */
  lemma StripNonEmpty(s: string)
    requires s != [] && !IsSpace(s[0])
    ensures Strip(s) != []
  {
    TrimLeftNoOp(s);
  }

  function DigitChar(d: nat): char
    requires d < 10
  {
    ['0', '1', '2', '3', '4', '5', '6', '7', '8', '9'][d]
  }

  predicate IsDigit(c: char) {
    '0' <= c <= '9'
  }

  /** `String(n)` / `str(n)` for a natural number: its decimal digits without leading zeros. */
  function ShowNat(n: nat): (s: string)
    ensures s != []
    ensures forall i :: 0 <= i < |s| ==> IsDigit(s[i])
    decreases n
  {
    if n < 10 then [DigitChar(n)] else ShowNat(n / 10) + [DigitChar(n % 10)]
  }

  /** The value of a string of decimal digits, as `Number(s)` reads it. */
  function DigitsValue(s: string): nat
    requires forall i :: 0 <= i < |s| ==> IsDigit(s[i])
  {
    if s == [] then 0
    else
      assert IsDigit(s[|s| - 1]);
      10 * DigitsValue(s[..|s| - 1]) + (s[|s| - 1] as int - '0' as int)
  }

  /** Reading back the decimal text of `n` gives `n`. */
  lemma {:induction false} ShowNatRoundTrip(n: nat)
    ensures DigitsValue(ShowNat(n)) == n
    decreases n
  {
    if n >= 10 {
      ShowNatRoundTrip(n / 10);
      var s := ShowNat(n);
      assert s[..|s| - 1] == ShowNat(n / 10);
    }
  }
}
