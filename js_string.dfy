/**
 * The JavaScript string built-ins the chat client relies on, stated on
 * `seq<char>`: `split` on the blank-line delimiter, `startsWith`,
 * `substring(start)` and `trim`.
 */
module JsString {
  import opened Wrappers

  /** The frame delimiter of the event stream: a blank line. */
  const Delimiter: string := "\n\n"

  /** `s` holds the delimiter at position `j`. */
  predicate DelimAt(s: string, j: int) {
    0 <= j && j + 1 < |s| && s[j] == '\n' && s[j + 1] == '\n'
  }

  predicate HasDelim(s: string) {
    exists j :: 0 <= j < |s| && DelimAt(s, j)
  }

  predicate EndsWithNewline(s: string) {
    |s| > 0 && s[|s| - 1] == '\n'
  }

  /** The position of the leftmost delimiter in `s`, if there is one. */
  function FirstDelim(s: string): (r: Option<nat>)
    ensures r.Some? ==> r.value + 2 <= |s|
  {
    if |s| < 2 then None
    else if s[0] == '\n' && s[1] == '\n' then Some(0)
    else
      match FirstDelim(s[1..])
      case None => None
      case Some(k) => Some(k + 1)
  }

  /** `FirstDelim` finds a delimiter with none before it, and finds none only when there is none. */
  lemma {:induction false} FirstDelimSpec(s: string)
    ensures FirstDelim(s).Some? ==> DelimAt(s, FirstDelim(s).value)
    ensures FirstDelim(s).Some? ==> forall j :: 0 <= j < FirstDelim(s).value ==> !DelimAt(s, j)
    ensures FirstDelim(s).None? ==> !HasDelim(s)
  {
    if |s| >= 2 && !(s[0] == '\n' && s[1] == '\n') {
      FirstDelimSpec(s[1..]);
      forall j | 1 <= j < |s| ensures DelimAt(s, j) == DelimAt(s[1..], j - 1) { }
      assert !DelimAt(s, 0);
    }
  }

  /** `parts.join("\n\n")`. */
  function Join(parts: seq<string>): (r: string) {
    if |parts| == 0 then ""
    else if |parts| == 1 then parts[0]
    else parts[0] + Delimiter + Join(parts[1..])
  }

  /** `s.split("\n\n")`: cuts at every leftmost non-overlapping delimiter. */
  function Split(s: string): (r: seq<string>)
    ensures |r| >= 1
    decreases |s|
  {
    match FirstDelim(s)
    case None => [s]
    case Some(k) => [s[..k]] + Split(s[k + 2..])
  }

  /** Joining the parts of a split with the delimiter gives the text back. */
  lemma {:induction false} SplitJoin(s: string)
    ensures Join(Split(s)) == s
    decreases |s|
  {
    match FirstDelim(s)
    case None =>
    case Some(k) =>
      var rest := Split(s[k + 2..]);
      SplitJoin(s[k + 2..]);
      FirstDelimSpec(s);
      assert ([s[..k]] + rest)[1..] == rest;
      assert s == s[..k] + Delimiter + s[k + 2..];
  }

  /**
   * The cuts are the leftmost ones: no part holds a delimiter, and no part
   * but the last ends with a newline (otherwise the cut would lie earlier).
   */
  lemma {:induction false} SplitPartsClean(s: string)
    ensures forall i :: 0 <= i < |Split(s)| ==> !HasDelim(Split(s)[i])
    ensures forall i :: 0 <= i < |Split(s)| - 1 ==> !EndsWithNewline(Split(s)[i])
    decreases |s|
  {
    FirstDelimSpec(s);
    match FirstDelim(s)
    case None =>
    case Some(k) =>
      var head, rest := s[..k], Split(s[k + 2..]);
      SplitPartsClean(s[k + 2..]);
      assert !HasDelim(head) by {
        forall j | 0 <= j < |head| && DelimAt(head, j) ensures false {
          assert DelimAt(s, j);
        }
      }
      assert !EndsWithNewline(head) by {
        if k >= 1 {
          assert head[k - 1] == s[k - 1];
          assert !DelimAt(s, k - 1);
        }
      }
      assert Split(s) == [head] + rest;
      forall i | 1 <= i < |Split(s)| ensures Split(s)[i] == rest[i - 1] { }
  }

  /** A delimiter with none before it is the one `FirstDelim` finds. */
  lemma FirstDelimIs(s: string, k: nat)
    requires DelimAt(s, k)
    requires forall j :: 0 <= j < k ==> !DelimAt(s, j)
    ensures FirstDelim(s) == Some(k)
  {
    FirstDelimSpec(s);
    match FirstDelim(s)
    case Some(m) =>
      assert !(m < k) && !(k < m);
    case None =>
      assert false;
  }

  /** Appending text cannot move the leftmost delimiter of a text that has one. */
  lemma FirstDelimAppend(x: string, y: string)
    requires FirstDelim(x).Some?
    ensures FirstDelim(x + y) == FirstDelim(x)
  {
    FirstDelimSpec(x);
    var k := FirstDelim(x).value;
    assert DelimAt(x + y, k);
    forall j | 0 <= j < k ensures !DelimAt(x + y, j) {
      assert DelimAt(x + y, j) ==> DelimAt(x, j);
    }
    FirstDelimIs(x + y, k);
  }

  /**
   * Splitting at the leftmost delimiter of `x`, with or without text after
   * it: the text before it, then the parts of the text after it.
   */
  lemma SplitAt(x: string, y: string, k: nat)
    requires FirstDelim(x) == Some(k)
    ensures Split(x) == [x[..k]] + Split(x[k + 2..])
    ensures Split(x + y) == [x[..k]] + Split(x[k + 2..] + y)
  {
    FirstDelimAppend(x, y);
    assert (x + y)[..k] == x[..k];
    assert (x + y)[k + 2..] == x[k + 2..] + y;
  }

  /** The parts of a sequence with one more element in front. */
  lemma ConsParts<T>(h: T, tail: seq<T>, z: seq<T>)
    requires |tail| >= 1
    ensures ([h] + tail)[..|tail|] == [h] + tail[..|tail| - 1]
    ensures ([h] + tail)[|tail|] == tail[|tail| - 1]
    ensures [h] + (tail[..|tail| - 1] + z) == ([h] + tail[..|tail| - 1]) + z
  {
  }

  /**
   * Splitting a text that is extended: the parts before the last stay as
   * they are, and the last part is split again together with the extension.
   */
  lemma {:induction false} SplitAppend(x: string, y: string)
    ensures Split(x + y) == Split(x)[..|Split(x)| - 1] + Split(Split(x)[|Split(x)| - 1] + y)
    decreases |x|
  {
    match FirstDelim(x)
    case None =>
      assert Split(x) == [x];
      assert [x][..0] == [];
    case Some(k) =>
      var rest := x[k + 2..];
      SplitAppend(rest, y);
      SplitAt(x, y, k);
      ConsParts(x[..k], Split(rest), Split(Split(rest)[|Split(rest)| - 1] + y));
  }

  /** `s.startsWith(prefix)`. */
  predicate StartsWith(s: string, prefix: string) {
    |prefix| <= |s| && s[..|prefix|] == prefix
  }

  /** `s.substring(start)`: a start past the end gives the empty string. */
  function Substring(s: string, start: nat): (r: string)
    ensures start <= |s| ==> s == s[..start] + r
    ensures start >= |s| ==> r == ""
  {
    if start <= |s| then s[start..] else ""
  }

  /** The characters `String.prototype.trim` removes: white space and line terminators. */
  predicate IsWhiteSpace(c: char) {
    c in {'\t', '\n', '\U{000B}', '\U{000C}', '\r', ' ', '\U{00A0}', '\U{1680}',
          '\U{2000}', '\U{2001}', '\U{2002}', '\U{2003}', '\U{2004}', '\U{2005}',
          '\U{2006}', '\U{2007}', '\U{2008}', '\U{2009}', '\U{200A}',
          '\U{2028}', '\U{2029}', '\U{202F}', '\U{205F}', '\U{3000}', '\U{FEFF}'}
  }

  predicate AllWhiteSpace(s: string) {
    forall k :: 0 <= k < |s| ==> IsWhiteSpace(s[k])
  }

  /** Drops the leading white space. */
  function TrimStart(s: string): string {
    if |s| > 0 && IsWhiteSpace(s[0]) then TrimStart(s[1..]) else s
  }

  /** `TrimStart` keeps the suffix of `s` that starts at its first character other than white space. */
  lemma {:induction false} TrimStartSpec(s: string)
    ensures |TrimStart(s)| <= |s| && TrimStart(s) == s[|s| - |TrimStart(s)|..]
    ensures AllWhiteSpace(s[..|s| - |TrimStart(s)|])
    ensures TrimStart(s) == [] || !IsWhiteSpace(TrimStart(s)[0])
  {
    if |s| > 0 && IsWhiteSpace(s[0]) {
      TrimStartSpec(s[1..]);
      var r := TrimStart(s[1..]);
      assert s[..|s| - |r|] == [s[0]] + s[1..][..|s| - 1 - |r|];
    }
  }

  /** Drops the trailing white space. */
  function TrimEnd(s: string): string {
    if |s| > 0 && IsWhiteSpace(s[|s| - 1]) then TrimEnd(s[..|s| - 1]) else s
  }

  /** `TrimEnd` keeps the prefix of `s` that ends at its last character other than white space. */
  lemma {:induction false} TrimEndSpec(s: string)
    ensures |TrimEnd(s)| <= |s| && TrimEnd(s) == s[..|TrimEnd(s)|]
    ensures AllWhiteSpace(s[|TrimEnd(s)|..])
    ensures TrimEnd(s) == [] || !IsWhiteSpace(TrimEnd(s)[|TrimEnd(s)| - 1])
  {
    if |s| > 0 && IsWhiteSpace(s[|s| - 1]) {
      TrimEndSpec(s[..|s| - 1]);
      var r := TrimEnd(s[..|s| - 1]);
      assert s[|r|..] == s[..|s| - 1][|r|..] + [s[|s| - 1]];
    }
  }

  /** `s.trim()`. */
  function Trim(s: string): string {
    TrimEnd(TrimStart(s))
  }

  /**
   * `Trim` neither starts nor ends with white space, and is empty exactly
   * when `s` consists of white space only.
   */
  lemma TrimSpec(s: string)
    ensures |Trim(s)| <= |s|
    ensures Trim(s) != [] ==> !IsWhiteSpace(Trim(s)[0]) && !IsWhiteSpace(Trim(s)[|Trim(s)| - 1])
    ensures Trim(s) == [] <==> AllWhiteSpace(s)
  {
    var t := TrimStart(s);
    TrimStartSpec(s);
    TrimEndSpec(t);
    var r := TrimEnd(t);
    if r == [] {
      assert AllWhiteSpace(t) by { assert t[|r|..] == t; }
      assert s == s[..|s| - |t|] + t;
    } else {
      assert r[0] == t[0] == s[|s| - |t|];
    }
  }

  /** `Trim` is a part of `s`: a prefix of the suffix that starts where the leading white space ends. */
  lemma TrimIsInfix(s: string)
    ensures |TrimStart(s)| <= |s| && TrimStart(s) == s[|s| - |TrimStart(s)|..]
    ensures Trim(s) <= TrimStart(s)
  {
    TrimStartSpec(s);
    TrimEndSpec(TrimStart(s));
  }
}
