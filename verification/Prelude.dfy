/** Shared value types: nullable columns, outcomes, times in nanoseconds and trimmed strings. */
module Prelude {

  /** A nullable column or field. */
  datatype Option<+T> = None | Some(value: T)

  /** A returned value or error. */
  datatype Result<+T, +E> = Ok(value: T) | Err(error: E)

  type Id = string

  /** Nanoseconds since the zero time of the Go library, so that the zero time is 0. */
  type Time = int

  /** Nanoseconds. */
  type Duration = int

  const MILLISECOND: Duration := 1_000_000
  const SECOND: Duration := 1_000_000_000
  const MAX_INT32: int := 0x7fff_ffff
  const MAX_INT64: int := 0x7fff_ffff_ffff_ffff

  /** Whole milliseconds of a duration, truncated toward zero. */
  function Milliseconds(d: Duration): int {
    if d >= 0 then d / MILLISECOND else -((-d) / MILLISECOND)
  }

  /** The duration that reaches the database: a whole number of milliseconds. */
  function WholeMilliseconds(d: Duration): Duration {
    Milliseconds(d) * MILLISECOND
  }

  /** The low 32 bits of an integer, read as a signed number. */
  function WrapInt32(x: int): int {
    (x + 0x8000_0000) % 0x1_0000_0000 - 0x8000_0000
  }

  function Min(a: int, b: int): int {
    if a <= b then a else b
  }

  function Max(a: int, b: int): int {
    if a >= b then a else b
  }

  predicate IsSpace(c: char) {
    var u := c as int;
    || 9 <= u <= 13 || u == 32 || u == 0x85 || u == 0xA0 || u == 0x1680
    || 0x2000 <= u <= 0x200A || u == 0x2028 || u == 0x2029 || u == 0x202F || u == 0x205F || u == 0x3000
  }

  /** The text without leading and trailing white space. */
  function TrimSpace(s: string): (t: string)
    ensures t == "" || (!IsSpace(t[0]) && !IsSpace(t[|t| - 1]))
    decreases |s|
  {
    if s == "" then ""
    else if IsSpace(s[0]) then TrimSpace(s[1..])
    else if IsSpace(s[|s| - 1]) then TrimSpace(s[..|s| - 1])
    else s
  }

  predicate Blank(s: string) {
    TrimSpace(s) == ""
  }

  /** A text whose first character is visible is not blank. */
  lemma {:induction false} VisibleStartIsNotBlank(s: string)
    requires s != "" && !IsSpace(s[0])
    ensures !Blank(s)
    decreases |s|
  {
    if IsSpace(s[|s| - 1]) {
      VisibleStartIsNotBlank(s[..|s| - 1]);
    }
  }

  /** The characters from i up to j are white space. */
  predicate SpaceBetween(s: string, i: int, j: int)
    requires 0 <= i <= j <= |s|
  {
    forall k :: i <= k < j ==> IsSpace(s[k])
  }

  /** Trimming takes white space off both ends and nothing else. */
  lemma {:induction false} TrimTakesOnlySpace(s: string) returns (i: int, j: int)
    ensures 0 <= i <= j <= |s| && TrimSpace(s) == s[i..j]
    ensures SpaceBetween(s, 0, i) && SpaceBetween(s, j, |s|)
    decreases |s|
  {
    i, j := 0, |s|;
    if s != "" && IsSpace(s[0]) {
      var rest := s[1..];
      i, j := TrimTakesOnlySpace(rest);
      assert rest[i..j] == s[i + 1..j + 1];
      assert forall k :: 0 < k < |s| ==> s[k] == rest[k - 1];
      i, j := i + 1, j + 1;
    } else if s != "" && IsSpace(s[|s| - 1]) {
      var rest := s[..|s| - 1];
      i, j := TrimTakesOnlySpace(rest);
      assert rest[i..j] == s[i..j];
      assert forall k :: 0 <= k < |rest| ==> s[k] == rest[k];
    }
  }

  /** Blank texts are exactly those of white space. */
  lemma BlankIffAllSpace(s: string)
    ensures Blank(s) <==> SpaceBetween(s, 0, |s|)
  {
    var i, j := TrimTakesOnlySpace(s);
    if i < j {
      assert TrimSpace(s)[0] == s[i];
    }
  }

  /** Trimming twice is trimming once. */
  lemma TrimIsIdempotent(s: string)
    ensures TrimSpace(TrimSpace(s)) == TrimSpace(s)
  {}

  lemma NotLarger<T>(a: set<T>, b: set<T>)
    requires a <= b
    ensures |a| <= |b|
  {
    assert b == a + (b - a);
  }
}
