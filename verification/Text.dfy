/**
 Text helpers the Go code takes from its standard library: splitting and joining on a
 separator, and the decimal form of machine integers.
 */
module Text {

  datatype Option<+T> = None | Some(value: T)

  datatype Result<+T, +E> = Ok(value: T) | Err(error: E)

  /** The pieces between occurrences of `sep`; always at least one piece. */
  function Split(s: string, sep: char): (parts: seq<string>)
    ensures |parts| >= 1
    ensures forall i | 0 <= i < |parts| :: sep !in parts[i]
  {
    if s == "" then [""]
    else
      var rest := Split(s[1..], sep);
      if s[0] == sep then [""] + rest else [[s[0]] + rest[0]] + rest[1..]
  }

  function Join(parts: seq<string>, sep: char): string {
    if parts == [] then ""
    else if |parts| == 1 then parts[0]
    else parts[0] + [sep] + Join(parts[1..], sep)
  }

  ghost predicate Free(parts: seq<string>, sep: char) {
    forall i | 0 <= i < |parts| :: sep !in parts[i]
  }

  lemma {:induction false} JoinSplit(s: string, sep: char)
    ensures Join(Split(s, sep), sep) == s
  {
    if s != "" {
      JoinSplit(s[1..], sep);
      var rest := Split(s[1..], sep);
      if s[0] == sep {
        assert ([""] + rest)[1..] == rest;
      } else {
        var parts := [[s[0]] + rest[0]] + rest[1..];
        assert parts[1..] == rest[1..];
      }
    }
  }

  lemma {:induction false} SplitWhole(s: string, sep: char)
    requires sep !in s
    ensures Split(s, sep) == [s]
  {
    if s != "" {
      SplitWhole(s[1..], sep);
      assert [s[0]] + s[1..] == s;
    }
  }

  lemma {:induction false} SplitFirst(s: string, sep: char, t: string)
    requires sep !in s
    ensures Split(s + [sep] + t, sep) == [s] + Split(t, sep)
  {
    var whole := s + [sep] + t;
    if s == "" {
      assert whole[1..] == t;
    } else {
      assert whole[1..] == s[1..] + [sep] + t;
      SplitFirst(s[1..], sep, t);
      assert [s[0]] + s[1..] == s;
      assert ([s[1..]] + Split(t, sep))[1..] == Split(t, sep);
    }
  }

  /** Joining and splitting again returns the list exactly when no item holds the separator. */
  lemma SplitJoin(parts: seq<string>, sep: char)
    requires parts != []
    ensures Split(Join(parts, sep), sep) == parts <==> Free(parts, sep)
  {
    if Free(parts, sep) {
      SplitJoinFree(parts, sep);
    }
  }

  lemma {:induction false} SplitJoinFree(parts: seq<string>, sep: char)
    requires parts != [] && Free(parts, sep)
    ensures Split(Join(parts, sep), sep) == parts
  {
    if |parts| == 1 {
      SplitWhole(parts[0], sep);
    } else {
      SplitJoinFree(parts[1..], sep);
      SplitFirst(parts[0], sep, Join(parts[1..], sep));
      assert [parts[0]] + parts[1..] == parts;
    }
  }

  lemma {:induction false} JoinAppend(parts: seq<string>, sep: char, c: string)
    requires parts != []
    ensures Join(parts + [c], sep) == Join(parts, sep) + [sep] + c
  {
    var all := parts + [c];
    if |parts| == 1 {
      assert all[1..] == [c];
    } else {
      JoinAppend(parts[1..], sep, c);
      assert all[1..] == parts[1..] + [c];
    }
  }

  /** `p` stands in `s` between two separators, or a separator and an end, or is all of it. */
  ghost predicate Piece(s: string, sep: char, p: string) {
    exists i, j :: PieceAt(s, sep, p, i, j)
  }

  ghost predicate PieceAt(s: string, sep: char, p: string, i: int, j: int) {
    && 0 <= i <= j <= |s| && s[i..j] == p && sep !in p
    && (i == 0 || s[i - 1] == sep) && (j == |s| || s[j] == sep)
  }

  /** The first piece ends at the first separator. */
  lemma {:induction false} FirstPiece(s: string, sep: char)
    ensures var n := |Split(s, sep)[0]|;
            n <= |s| && s[..n] == Split(s, sep)[0] && (n == |s| || s[n] == sep)
  {
    if s != "" && s[0] != sep {
      FirstPiece(s[1..], sep);
      var n := |Split(s[1..], sep)[0]|;
      assert s[..n + 1] == [s[0]] + s[1..][..n];
    }
  }

  lemma ShiftPiece(s: string, sep: char, p: string, i: int, j: int)
    requires s != "" && i >= 0
    ensures PieceAt(s, sep, p, i + 1, j + 1) <==> PieceAt(s[1..], sep, p, i, j) && (i == 0 ==> s[0] == sep)
  {
    var t := s[1..];
    if i <= j <= |t| {
      var a, b := s[i + 1..j + 1], t[i..j];
      assert forall k | 0 <= k < j - i :: a[k] == s[i + 1 + k] == t[i + k] == b[k];
      assert a == b;
      assert i > 0 ==> s[i] == t[i - 1];
      assert j < |t| ==> s[j + 1] == t[j];
    }
  }

  /** The later pieces are those that start after a separator. */
  lemma {:induction false} LaterPieces(s: string, sep: char, p: string)
    ensures p in Split(s, sep)[1..] <==> exists i, j :: 1 <= i && PieceAt(s, sep, p, i, j)
  {
    if s != "" {
      var t, rest := s[1..], Split(s[1..], sep);
      LaterPieces(t, sep, p);
      if s[0] == sep {
        assert ([""] + rest)[1..] == rest;
      } else {
        assert ([[s[0]] + rest[0]] + rest[1..])[1..] == rest[1..];
      }
      assert p in rest <==> p == rest[0] || p in rest[1..];
      if p in rest[1..] {
        var i, j :| 1 <= i && PieceAt(t, sep, p, i, j);
        ShiftPiece(s, sep, p, i, j);
      }
      if s[0] == sep && p == rest[0] {
        FirstPiece(t, sep);
        assert PieceAt(t, sep, p, 0, |p|);
        ShiftPiece(s, sep, p, 0, |p|);
      }
      if i, j :| 1 <= i && PieceAt(s, sep, p, i, j) {
        ShiftPiece(s, sep, p, i - 1, j - 1);
        if i == 1 {
          SameEnd(t, sep, p, j - 1);
        }
      }
    }
  }

  lemma SameEnd(s: string, sep: char, p: string, j: int)
    requires PieceAt(s, sep, p, 0, j)
    ensures p == Split(s, sep)[0]
  {
    FirstPiece(s, sep);
    var first := Split(s, sep)[0];
    assert forall k | 0 <= k < j :: s[k] == p[k];
    assert forall k | 0 <= k < |first| :: s[k] == first[k];
    assert |first| == j;
  }

  /** What splitting gives, by positions in the text. */
  lemma PieceIff(s: string, sep: char, p: string)
    ensures p in Split(s, sep) <==> Piece(s, sep, p)
  {
    FirstPiece(s, sep);
    LaterPieces(s, sep, p);
    var all := Split(s, sep);
    assert all == [all[0]] + all[1..];
    if p == all[0] {
      assert PieceAt(s, sep, p, 0, |p|);
    } else if Piece(s, sep, p) {
      var i, j :| PieceAt(s, sep, p, i, j);
      if i == 0 {
        SameEnd(s, sep, p, j);
      }
    }
  }

  // ---------------------------------------------------------------- decimal integers

  const MIN_INT := -0x8000_0000_0000_0000
  const MAX_INT := 0x7fff_ffff_ffff_ffff

  /** A machine integer of the 64-bit platforms the program is built for. */
  type Int64 = i: int | MIN_INT <= i <= MAX_INT

  function Digit(n: nat): char
    requires n < 10
  {
    ('0' as int + n) as char
  }

  function Digits(n: nat): (s: string)
    ensures s != "" && forall i | 0 <= i < |s| :: '0' <= s[i] <= '9'
  {
    if n < 10 then [Digit(n)] else Digits(n / 10) + [Digit(n % 10)]
  }

  /** strconv.Itoa. */
  function Itoa(i: int): (s: string)
    ensures s != ""
  {
    if i < 0 then "-" + Digits(-i) else Digits(i)
  }

  function ParseDigits(s: string): Option<nat> {
    if s == "" then None
    else
      var c := s[|s| - 1];
      if !('0' <= c <= '9') then None
      else
        var d := c as int - '0' as int;
        if |s| == 1 then Some(d)
        else match ParseDigits(s[..|s| - 1])
          case None => None
          case Some(n) => Some(n * 10 + d)
  }

  /** strconv.Atoi: an optional sign, at least one digit, and a value that fits a machine integer. */
  function Atoi(s: string): (r: Option<Int64>) {
    if s == "" then None
    else
      var signed := s[0] == '-' || s[0] == '+';
      match ParseDigits(if signed then s[1..] else s)
      case None => None
      case Some(n) =>
        var magnitude: int := n;
        var value := if s[0] == '-' then -magnitude else magnitude;
        if MIN_INT <= value <= MAX_INT then Some(value) else None
  }

  lemma {:induction false} ParsePrinted(n: nat)
    ensures ParseDigits(Digits(n)) == Some(n)
  {
    if n >= 10 {
      ParsePrinted(n / 10);
      var s := Digits(n);
      assert s[..|s| - 1] == Digits(n / 10);
    }
  }

  lemma AtoiPositive(s: string, n: nat)
    requires ParseDigits(s) == Some(n) && s != "" && '0' <= s[0] <= '9' && n <= MAX_INT
    ensures Atoi(s) == Some(n)
  {
  }

  lemma AtoiNegative(s: string, n: nat)
    requires ParseDigits(s) == Some(n) && n <= MAX_INT + 1
    ensures Atoi("-" + s) == Some(0 - n)
  {
    var signed := "-" + s;
    assert signed != "" && signed[0] == '-' && signed[1..] == s;
  }

  lemma AtoiItoa(i: Int64)
    ensures Atoi(Itoa(i)) == Some(i)
  {
    var value: int := i;
    var magnitude: nat := if value < 0 then 0 - value else value;
    ParsePrinted(magnitude);
    if value < 0 {
      AtoiNegative(Digits(magnitude), magnitude);
    } else {
      AtoiPositive(Digits(magnitude), magnitude);
    }
  }
}
