/** Strings as the Go and TypeScript sources cut and join them. */
module Text {
  datatype Option<+T> = None | Some(value: T)

  /** strings.Split and String.split on one character: never empty. */
  function Split(s: string, c: char): (parts: seq<string>)
    ensures |parts| >= 1
    ensures forall k :: 0 <= k < |parts| ==> c !in parts[k]
  {
    if s == [] then [""]
    else
      var rest := Split(s[1..], c);
      if s[0] == c then [""] + rest else [[s[0]] + rest[0]] + rest[1..]
  }

  /** strings.Join. */
  function Join(parts: seq<string>, sep: string): string {
    if |parts| == 0 then ""
    else if |parts| == 1 then parts[0]
    else parts[0] + sep + Join(parts[1..], sep)
  }

  lemma {:induction false} JoinOfSplit(s: string, c: char)
    ensures Join(Split(s, c), [c]) == s
  {
    if s != [] {
      JoinOfSplit(s[1..], c);
      var rest := Split(s[1..], c);
      if s[0] == c {
        assert ([""] + rest)[1..] == rest;
      } else {
        var parts := Split(s, c);
        assert parts[1..] == rest[1..];
        if |rest| > 1 {
          assert Join(parts, [c]) == [s[0]] + (rest[0] + [c] + Join(rest[1..], [c]));
        }
      }
    }
  }

  /** A piece without the separator comes off whole. */
  lemma {:induction false} SplitCons(piece: string, rest: string, c: char)
    requires c !in piece
    ensures Split(piece + [c] + rest, c) == [piece] + Split(rest, c)
  {
    var s := piece + [c] + rest;
    if piece == [] {
      assert s[1..] == rest;
    } else {
      assert s[1..] == piece[1..] + [c] + rest;
      SplitCons(piece[1..], rest, c);
      assert [s[0]] + piece[1..] == piece;
    }
  }

  lemma {:induction false} SplitSingle(piece: string, c: char)
    requires c !in piece
    ensures Split(piece, c) == [piece]
  {
    if piece != [] {
      SplitSingle(piece[1..], c);
      assert [piece[0]] + piece[1..] == piece;
    }
  }

  lemma {:induction false} SplitOfJoin(parts: seq<string>, c: char)
    requires |parts| >= 1
    requires forall k :: 0 <= k < |parts| ==> c !in parts[k]
    ensures Split(Join(parts, [c]), c) == parts
  {
    if |parts| == 1 {
      SplitSingle(parts[0], c);
    } else {
      SplitOfJoin(parts[1..], c);
      SplitCons(parts[0], Join(parts[1..], [c]), c);
      assert [parts[0]] + parts[1..] == parts;
    }
  }

  predicate HasPrefix(s: string, p: string): (yes: bool)
    ensures yes <==> exists rest :: s == p + rest
  {
    if p <= s then
      assert s == p + s[|p|..];
      true
    else false
  }

  predicate HasSuffix(s: string, p: string): (yes: bool)
    ensures yes <==> exists start :: s == start + p
  {
    if |p| <= |s| && s[|s| - |p|..] == p then
      assert s == s[..|s| - |p|] + p;
      true
    else false
  }

  function TrimPrefix(s: string, p: string): (r: string)
    ensures s == p + r || (r == s && !HasPrefix(s, p))
  {
    if p <= s then s[|p|..] else s
  }

  function TrimSuffix(s: string, p: string): (r: string)
    ensures s == r + p || (r == s && !HasSuffix(s, p))
  {
    if HasSuffix(s, p) then s[..|s| - |p|] else s
  }

  /** strconv.Itoa and template literals, for natural numbers. */
  function Decimal(n: nat): (s: string)
    ensures s != "" && forall k :: 0 <= k < |s| ==> IsDigit(s[k])
  {
    if n < 10 then [Digit(n)] else Decimal(n / 10) + [Digit(n % 10)]
  }

  predicate IsDigit(c: char) { '0' <= c <= '9' }

  function Digit(d: nat): (c: char)
    requires d < 10
    ensures IsDigit(c)
  {
    '0' + d as char
  }

  /** The number a string of digits stands for. */
  function Number(s: string): nat
    requires forall k :: 0 <= k < |s| ==> IsDigit(s[k])
  {
    if s == "" then 0
    else
      assert IsDigit(s[|s| - 1]);
      10 * Number(s[..|s| - 1]) + (s[|s| - 1] as int - '0' as int)
  }

  lemma {:induction false} NumberOfDecimal(n: nat)
    ensures Number(Decimal(n)) == n
  {
    if n >= 10 {
      NumberOfDecimal(n / 10);
      assert Decimal(n)[..|Decimal(n)| - 1] == Decimal(n / 10);
    } else {
      assert Decimal(n)[..0] == "";
    }
  }

  // ── Letters ─────────────────────────────────────────────────────────────────

  const LOWER := "abcdefghijklmnopqrstuvwxyz"
  const UPPER := "ABCDEFGHIJKLMNOPQRSTUVWXYZ"
  const DIGITS := "0123456789"

  lemma {:induction false} LowerIs(c: char)
    ensures 'a' <= c <= 'z' <==> c in LOWER
  {}

  lemma {:induction false} UpperIs(c: char)
    ensures 'A' <= c <= 'Z' <==> c in UPPER
  {}

  lemma {:induction false} DigitIs(c: char)
    ensures '0' <= c <= '9' <==> c in DIGITS
  {}
}
