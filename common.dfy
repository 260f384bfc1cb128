/** Shared vocabulary of the marketplace model: optional values, HTTP replies,
    document ids, JavaScript truthiness of JSON body fields, and the string
    operations that the schemas and the token gate rely on. */
module Common {

  datatype Option<T> = None | Some(value: T)

  /** The id of a stored document (a MongoDB ObjectId). Every document created
      by the model takes the next value of one monotone counter, which also
      serves as its creation timestamp. */
  type Id = nat

  /** An HTTP reply: status code, the `message` of the JSON envelope ("" when the
      envelope has none) and the payload of a successful reply. */
  datatype Reply<T> = Reply(status: nat, message: string, body: Option<T>)

  /** An error reply: no payload. */
  function Fail<T>(status: nat, message: string): (r: Reply<T>)
    ensures r.status == status && r.message == message && r.body.None?
  {
    Reply(status, message, None)
  }

  /** JavaScript truthiness of an optional string field of a JSON body:
      a missing field and the empty string are both falsy. */
  predicate Present(s: Option<string>) {
    s.Some? && s.value != ""
  }

  /** JavaScript truthiness of an optional number field: a missing field and 0
      are falsy. */
  predicate PresentNumber(n: Option<int>) {
    n.Some? && n.value != 0
  }

  // ---------------------------------------------------------------------------
  // White space, trimming, lower-casing
  // ---------------------------------------------------------------------------

  /** The characters that `\s` matches in a JavaScript regular expression; the
      same set is removed by String.prototype.trim. */
  predicate IsSpace(c: char) {
    c == ' ' || c == '\t' || c == '\n' || c == '\r' || c == '\U{B}' || c == '\U{C}'
    || c == '\U{A0}' || c == '\U{1680}' || ('\U{2000}' <= c <= '\U{200A}')
    || c == '\U{2028}' || c == '\U{2029}' || c == '\U{202F}' || c == '\U{205F}'
    || c == '\U{3000}' || c == '\U{FEFF}'
  }

  predicate NoSpace(s: string) {
    forall k :: 0 <= k < |s| ==> !IsSpace(s[k])
  }

  /** Leading white space removed: the result is a suffix of `s`, does not start
      with white space, and what was cut off is all white space. */
  function TrimStart(s: string): (r: string)
    ensures |r| <= |s| && r == s[|s| - |r|..]
    ensures r == [] || !IsSpace(r[0])
    ensures forall k :: 0 <= k < |s| - |r| ==> IsSpace(s[k])
  {
    if s != [] && IsSpace(s[0]) then TrimStart(s[1..]) else s
  }

  /** Trailing white space removed: the result is a prefix of `s`, does not end
      with white space, and what was cut off is all white space. */
  function TrimEnd(s: string): (r: string)
    ensures |r| <= |s| && r == s[..|r|]
    ensures r == [] || !IsSpace(r[|r| - 1])
    ensures forall k :: |r| <= k < |s| ==> IsSpace(s[k])
  {
    if s != [] && IsSpace(s[|s| - 1]) then TrimEnd(s[..|s| - 1]) else s
  }

  /** `r` is `s` with white space cut from both ends, starting at index `i`. */
  predicate CutAt(s: string, r: string, i: int) {
    0 <= i <= |s| - |r| && r == s[i..i + |r|]
    && (forall k :: 0 <= k < i ==> IsSpace(s[k]))
    && (forall k :: i + |r| <= k < |s| ==> IsSpace(s[k]))
  }

  predicate IsTrimmed(s: string) {
    s == [] || (!IsSpace(s[0]) && !IsSpace(s[|s| - 1]))
  }

  /** String.prototype.trim, which the schemas' `trim: true` option applies:
      only white space is cut, and only at the two ends. */
  function Trim(s: string): (r: string)
    ensures exists i :: CutAt(s, r, i)
    ensures IsTrimmed(r)
  {
    var t := TrimStart(s);
    var r := TrimEnd(t);
    assert CutAt(s, r, |s| - |t|);
    r
  }

  /** A string that starts and ends with non-space is its own trim. */
  lemma TrimOfTrimmed(s: string)
    requires IsTrimmed(s)
    ensures Trim(s) == s
  {
  }

  /** Trimming twice is trimming once; the trim is empty exactly for a string
      of white space (which the `required` validators then reject). */
  lemma TrimIdempotent(s: string)
    ensures Trim(Trim(s)) == Trim(s)
    ensures Trim(s) == [] <==> (forall k :: 0 <= k < |s| ==> IsSpace(s[k]))
  {
    TrimOfTrimmed(Trim(s));
    var t := TrimStart(s);
    assert Trim(s) == [] ==> t == [];
  }

  predicate IsUpper(c: char) { 'A' <= c <= 'Z' }

  function LowerChar(c: char): (d: char)
    ensures !IsUpper(d)
    ensures IsSpace(d) <==> IsSpace(c)
    ensures !IsUpper(c) ==> d == c
  {
    if IsUpper(c) then (c as int + 32) as char else c
  }

  /** The schema's `lowercase: true` option (String.prototype.toLowerCase,
      restricted to the ASCII letters). The result has the same length, no
      upper-case letter, and agrees with `s` wherever `s` has none. */
  function LowerCase(s: string): (r: string)
    ensures |r| == |s|
    ensures forall k :: 0 <= k < |r| ==> !IsUpper(r[k]) && r[k] == LowerChar(s[k])
  {
    if s == [] then [] else [LowerChar(s[0])] + LowerCase(s[1..])
  }

  /** What `lowercase: true, trim: true` make of an e-mail address, on a stored
      document and, through query casting, on a lookup key. */
  function Normalize(email: string): (r: string)
    ensures r == LowerCase(Trim(email))
    ensures |r| <= |email|
    ensures IsNormalized(r)
  {
    LowerCaseKeepsTrimmed(Trim(email));
    LowerCase(Trim(email))
  }

  /** No white space at either end and no upper-case letter. */
  predicate IsNormalized(s: string) {
    IsTrimmed(s) && forall k :: 0 <= k < |s| ==> !IsUpper(s[k])
  }

  /** A normalized string is its own normal form. */
  lemma NormalizeOfNormalized(s: string)
    requires IsNormalized(s)
    ensures Normalize(s) == s
  {
    TrimOfTrimmed(s);
    LowerCaseOfLower(s);
  }

  lemma LowerCaseOfLower(s: string)
    requires forall k :: 0 <= k < |s| ==> !IsUpper(s[k])
    ensures LowerCase(s) == s
  {
    var r := LowerCase(s);
    assert forall k :: 0 <= k < |s| ==> r[k] == s[k];
  }

  /** Lower-casing neither creates nor removes white space at the ends. */
  lemma LowerCaseKeepsTrimmed(s: string)
    requires IsTrimmed(s)
    ensures IsTrimmed(LowerCase(s))
  {
  }

  /** Normalizing is idempotent: a stored e-mail is found again by itself. */
  lemma NormalizeIdempotent(email: string)
    ensures Normalize(Normalize(email)) == Normalize(email)
  {
    NormalizeOfNormalized(Normalize(email));
  }

  // ---------------------------------------------------------------------------
  // Splitting on a space (String.prototype.split(' '))
  // ---------------------------------------------------------------------------

  /** `s.split(' ')`: the pieces between single spaces; never empty. */
  function SplitOnSpace(s: string): (parts: seq<string>)
    ensures |parts| >= 1
    ensures forall i :: 0 <= i < |parts| ==> ' ' !in parts[i]
  {
    if s == [] then [""]
    else
      var rest := SplitOnSpace(s[1..]);
      if s[0] == ' ' then [""] + rest else [[s[0]] + rest[0]] + rest[1..]
  }

  /** The inverse of SplitOnSpace: the pieces joined by single spaces. */
  function JoinWithSpace(parts: seq<string>): string
    requires |parts| >= 1
  {
    if |parts| == 1 then parts[0] else parts[0] + " " + JoinWithSpace(parts[1..])
  }

  /** Splitting loses nothing: joining the pieces gives back the string. */
  lemma {:induction false} SplitJoin(s: string)
    ensures JoinWithSpace(SplitOnSpace(s)) == s
  {
    if s != [] {
      SplitJoin(s[1..]);
      var rest := SplitOnSpace(s[1..]);
      if s[0] != ' ' {
        var parts := SplitOnSpace(s);
        assert parts[1..] == rest[1..];
        if |rest| > 1 {
          assert JoinWithSpace(rest) == rest[0] + " " + JoinWithSpace(rest[1..]);
        }
      }
    }
  }

  /** Two words without spaces, joined by one space, split into exactly those
      two words: the shape of a well-formed "Bearer <token>" header. */
  lemma {:induction false} SplitTwoWords(p: string, w: string)
    requires ' ' !in p && ' ' !in w
    ensures SplitOnSpace(p + " " + w) == [p, w]
  {
    if p == [] {
      assert p + " " + w == " " + w;
      assert (" " + w)[1..] == w;
      SplitWord(w);
    } else {
      assert (p + " " + w)[1..] == p[1..] + " " + w;
      assert forall c :: c in p[1..] ==> c in p;
      SplitTwoWords(p[1..], w);
      assert p[0] in p;
      assert [p[0]] + p[1..] == p;
    }
  }

  /** A word without spaces is one piece. */
  lemma {:induction false} SplitWord(w: string)
    requires ' ' !in w
    ensures SplitOnSpace(w) == [w]
  {
    if w != [] {
      assert w[0] in w;
      assert forall c :: c in w[1..] ==> c in w;
      SplitWord(w[1..]);
      assert [w[0]] + w[1..] == w;
    }
  }

  /** `t` is the second space-separated piece of `s`: `s` is a first piece
      `a`, one space, `t`, and then nothing or a space and more. */
  predicate SecondPiece(s: string, a: string, t: string, rest: string) {
    s == a + " " + t + rest && ' ' !in a && ' ' !in t && (rest == "" || rest[0] == ' ')
  }

  /** `s.split(' ')` has a second piece exactly when `s` has a space, and that
      piece is the one between the first space and the next. */
  lemma {:induction false} SplitSecondPiece(s: string)
    ensures |SplitOnSpace(s)| >= 2 <==> ' ' in s
    ensures |SplitOnSpace(s)| >= 2 ==> exists rest :: SecondPiece(s, SplitOnSpace(s)[0], SplitOnSpace(s)[1], rest)
  {
    var parts := SplitOnSpace(s);
    SplitJoin(s);
    if |parts| == 1 {
      assert s == parts[0];
    } else {
      var tail := parts[1..];
      var rest := if |tail| == 1 then "" else " " + JoinWithSpace(tail[1..]);
      assert JoinWithSpace(tail) == tail[0] + rest;
      assert s == parts[0] + " " + parts[1] + rest;
      assert s[|parts[0]|] == ' ';
      assert SecondPiece(s, parts[0], parts[1], rest);
    }
  }

  /** The second piece is determined by the string. */
  lemma SecondPieceUnique(s: string, a: string, t: string, rest: string, a2: string, t2: string, rest2: string)
    requires SecondPiece(s, a, t, rest) && SecondPiece(s, a2, t2, rest2)
    ensures a == a2 && t == t2
  {
    FirstSpace(s, a, " " + t + rest, a2, " " + t2 + rest2);
    var u := t + rest;
    assert s == a + " " + u && s == a2 + " " + (t2 + rest2);
    assert u == s[|a| + 1..] == t2 + rest2;
    FirstSpace(u, t, rest, t2, rest2);
  }

  /** Two ways of cutting `s` before a space (or at its end), each with no
      space before the cut, are the same cut. */
  lemma FirstSpace(s: string, a: string, b: string, a2: string, b2: string)
    requires s == a + b && s == a2 + b2 && ' ' !in a && ' ' !in a2
    requires (b == [] || b[0] == ' ') && (b2 == [] || b2[0] == ' ')
    ensures a == a2
  {
    assert a == s[..|a|] && a2 == s[..|a2|];
  }

  predicate StartsWith(s: string, prefix: string) {
    |prefix| <= |s| && s[..|prefix|] == prefix
  }

  // ---------------------------------------------------------------------------
  // ObjectId text (mongoose.Types.ObjectId.isValid and casting)
  // ---------------------------------------------------------------------------

  predicate IsHexDigit(c: char) {
    '0' <= c <= '9' || 'a' <= c <= 'f' || 'A' <= c <= 'F'
  }

  function HexDigitValue(c: char): (v: nat)
    requires IsHexDigit(c)
    ensures v < 16
  {
    if '0' <= c <= '9' then c as int - '0' as int
    else if 'a' <= c <= 'f' then c as int - 'a' as int + 10
    else c as int - 'A' as int + 10
  }

  function HexDigit(v: nat): (c: char)
    requires v < 16
    ensures IsHexDigit(c) && HexDigitValue(c) == v
  {
    if v < 10 then ('0' as int + v) as char else ('a' as int + v - 10) as char
  }

  /** The big-endian value of a string of hex digits. */
  function HexValue(s: string): nat
    requires forall k :: 0 <= k < |s| ==> IsHexDigit(s[k])
  {
    if s == [] then 0 else HexValue(s[..|s| - 1]) * 16 + HexDigitValue(s[|s| - 1])
  }

  function Pow16(n: nat): nat
  {
    if n == 0 then 1 else 16 * Pow16(n - 1)
  }

  /** `width` lower-case hex digits of `v`, most significant first. */
  function HexText(v: nat, width: nat): string
  {
    if width == 0 then [] else HexText(v / 16, width - 1) + [HexDigit(v % 16)]
  }

  const ObjectIdLength: nat := 24

  /** The text form of an id, as ObjectId#toString renders it. */
  function IdText(id: Id): string
  {
    HexText(id, ObjectIdLength)
  }

  /** Casting a path parameter to an ObjectId: 24 hex digits, read as a number;
      anything else is malformed (isValid is false, casting throws). */
  function ParseObjectId(s: string): (r: Option<Id>)
    ensures r.Some? <==> |s| == ObjectIdLength && forall k :: 0 <= k < |s| ==> IsHexDigit(s[k])
    ensures r.Some? ==> r.value < Pow16(ObjectIdLength)
  {
    if |s| == ObjectIdLength && forall k :: 0 <= k < |s| ==> IsHexDigit(s[k]) then
      HexBound(s);
      Some(HexValue(s))
    else None
  }

  lemma {:induction false} HexBound(s: string)
    requires forall k :: 0 <= k < |s| ==> IsHexDigit(s[k])
    ensures HexValue(s) < Pow16(|s|)
  {
    if s != [] {
      HexBound(s[..|s| - 1]);
    }
  }

  lemma {:induction false} HexRoundTrip(v: nat, width: nat)
    requires v < Pow16(width)
    ensures |HexText(v, width)| == width
    ensures forall k :: 0 <= k < width ==> IsHexDigit(HexText(v, width)[k])
    ensures HexValue(HexText(v, width)) == v
  {
    if width > 0 {
      HexRoundTrip(v / 16, width - 1);
      var s := HexText(v, width);
      assert s[..|s| - 1] == HexText(v / 16, width - 1);
    }
  }

  /** Rendering an id and casting the text back gives the id again. */
  lemma IdTextRoundTrip(id: Id)
    requires id < Pow16(ObjectIdLength)
    ensures ParseObjectId(IdText(id)) == Some(id)
  {
    HexRoundTrip(id, ObjectIdLength);
  }
}
