/** AidBuffer of RouteDataSet.cpp: hexadecimal numbers between colons become an array of bytes. */
module AidBuffer {

  type Byte = x: int | 0 <= x < 256

  // ---------------------------------------------------------------- sscanf's %x

  predicate Space(c: char) { c == ' ' || '\t' <= c <= '\r' }

  function HexDigit(c: char): (d: int)
    ensures -1 <= d < 16
  {
    if '0' <= c <= '9' then c as int - '0' as int
    else if 'a' <= c <= 'f' then c as int - 'a' as int + 10
    else if 'A' <= c <= 'F' then c as int - 'A' as int + 10
    else -1
  }

  /** Where the white space that starts at i ends. */
  function SkipSpaces(s: string, i: nat): (t: nat)
    requires i <= |s|
    ensures i <= t <= |s|
    decreases |s| - i
  {
    if i < |s| && Space(s[i]) then SkipSpaces(s, i + 1) else i
  }

  /** The value of the digits from i on, after digits of value v. */
  function Value(v: nat, s: string, i: nat): nat
    requires i <= |s|
    decreases |s| - i
  {
    if i < |s| && HexDigit(s[i]) >= 0 then Value(16 * v + HexDigit(s[i]), s, i + 1) else v
  }

  predicate HexPrefix(s: string, i: nat) { i + 2 <= |s| && s[i] == '0' && (s[i + 1] == 'x' || s[i + 1] == 'X') }

  predicate Minus(s: string, i: nat) { i < |s| && s[i] == '-' }
  predicate Plus(s: string, i: nat) { i < |s| && s[i] == '+' }

  /** The number %x reads, cut to a byte: white space, a sign, 0x, digits; 0 if there is no digit. */
  function Scan(s: string): Byte {
    var t := SkipSpaces(s, 0);
    var u := if Minus(s, t) || Plus(s, t) then t + 1 else t;
    var v: int := Value(0, s, if HexPrefix(s, u) then u + 2 else u);
    (if Minus(s, t) then -v else v) % 256
  }

  // ---------------------------------------------------------------- fields

  const DELIMITER := ':'

  /** Where the next colon is from pos on; the length of s if there is none. */
  function Find(s: string, pos: nat): (k: nat)
    requires pos <= |s|
    ensures pos <= k <= |s| && (k < |s| ==> s[k] == DELIMITER) && forall i :: pos <= i < k ==> s[i] != DELIMITER
    decreases |s| - pos
  {
    if pos == |s| || s[pos] == DELIMITER then pos else Find(s, pos + 1)
  }

  /** The fields of s from pos on. */
  function Split(s: string, pos: nat): (fields: seq<string>)
    requires pos <= |s|
    ensures |fields| >= 1
    decreases |s| - pos
  {
    var k := Find(s, pos);
    if k == |s| then [s[pos..]] else [s[pos..k]] + Split(s, k + 1)
  }

  function Join(fields: seq<string>): string
    requires fields != []
  {
    if |fields| == 1 then fields[0] else fields[0] + [DELIMITER] + Join(fields[1..])
  }

  /** The number of colons from pos on. */
  function Colons(s: string, pos: nat): nat
    requires pos <= |s|
    decreases |s| - pos
  {
    if pos == |s| then 0 else (if s[pos] == DELIMITER then 1 else 0) + Colons(s, pos + 1)
  }

  function Numbers(fields: seq<string>): (bytes: seq<Byte>)
    ensures |bytes| == |fields|
  {
    if fields == [] then [] else [Scan(fields[0])] + Numbers(fields[1..])
  }

  /** The numbers of the fields from pos on. */
  function Parse(s: string, pos: nat): (bytes: seq<Byte>)
    requires pos <= |s|
    ensures |bytes| == |Split(s, pos)|
  {
    Numbers(Split(s, pos))
  }

  predicate Plain(field: string) { DELIMITER !in field }

  /** What stands in front of a text does not change its fields. */
  lemma {:induction false} SplitBehind(front: string, s: string, all: string, pos: nat)
    requires pos <= |s| && all == front + s
    ensures Split(all, |front| + pos) == Split(s, pos)
    decreases |s| - pos
  {
    FindBehind(front, s, all, pos);
    var k := Find(s, pos);
    if k < |s| {
      SplitBehind(front, s, all, k + 1);
      assert all[|front| + pos..|front| + k] == s[pos..k];
    } else {
      assert all[|front| + pos..] == s[pos..];
    }
  }

  lemma {:induction false} FindBehind(front: string, s: string, all: string, pos: nat)
    requires pos <= |s| && all == front + s
    ensures Find(all, |front| + pos) == |front| + Find(s, pos)
    decreases |s| - pos
  {
    if pos < |s| {
      assert all[|front| + pos] == s[pos];
      FindBehind(front, s, all, pos + 1);
    }
  }

  /** Split undoes Join, for fields without a colon. */
  lemma {:induction false} SplitOfJoin(fields: seq<string>)
    requires fields != [] && forall i :: 0 <= i < |fields| ==> Plain(fields[i])
    ensures Split(Join(fields), 0) == fields
  {
    var s, first := Join(fields), fields[0];
    if |fields| == 1 {
      assert Find(s, 0) == |s|;
    } else {
      var front := first + [DELIMITER];
      assert forall i :: 0 <= i < |first| ==> s[i] == first[i];
      assert s[|first|] == DELIMITER && Find(s, 0) == |first|;
      SplitBehind(front, Join(fields[1..]), s, 0);
      SplitOfJoin(fields[1..]);
      assert s[0..|first|] == first;
    }
  }

  lemma JoinOneMore(first: string, fields: seq<string>)
    requires fields != []
    ensures Join([first] + fields) == first + [DELIMITER] + Join(fields)
  {
    assert ([first] + fields)[1..] == fields;
  }

  lemma CutAt(s: string, pos: nat, k: nat)
    requires pos <= k < |s| && s[k] == DELIMITER
    ensures s[pos..] == s[pos..k] + [DELIMITER] + s[k + 1..]
  {
  }

  /** Join undoes Split, on every text. */
  lemma {:induction false} JoinOfSplit(s: string, pos: nat)
    requires pos <= |s|
    ensures Join(Split(s, pos)) == s[pos..]
    decreases |s| - pos
  {
    var k := Find(s, pos);
    if k < |s| {
      JoinOfSplit(s, k + 1);
      JoinOneMore(s[pos..k], Split(s, k + 1));
      CutAt(s, pos, k);
    }
  }

  lemma {:induction false} NumbersAt(fields: seq<string>, i: nat)
    requires i < |fields|
    ensures Numbers(fields)[i] == Scan(fields[i])
  {
    if i > 0 { NumbersAt(fields[1..], i - 1); }
  }

  /** One field's number, and those of the rest. */
  lemma ParseOnce(s: string, pos: nat)
    requires pos <= |s|
    ensures var k := Find(s, pos); Parse(s, pos) == [Scan(s[pos..k])] + if k == |s| then [] else Parse(s, k + 1)
  {
    var k := Find(s, pos);
    if k == |s| {
      assert s[pos..k] == s[pos..];
    } else {
      assert Split(s, pos)[1..] == Split(s, k + 1);
    }
  }

  /** And no field has a colon. */
  lemma {:induction false} FieldsArePlain(s: string, pos: nat)
    requires pos <= |s|
    ensures forall i :: 0 <= i < |Split(s, pos)| ==> Plain(Split(s, pos)[i])
    decreases |s| - pos
  {
    var k := Find(s, pos);
    assert Plain(s[pos..k]);
    if k < |s| {
      FieldsArePlain(s, k + 1);
    } else {
      assert s[pos..] == s[pos..k];
    }
  }

  lemma {:induction false} ColonsFromNext(s: string, pos: nat)
    requires pos <= |s|
    ensures var k := Find(s, pos); Colons(s, pos) == if k == |s| then 0 else 1 + Colons(s, k + 1)
    decreases |s| - pos
  {
    if pos < |s| && s[pos] != DELIMITER { ColonsFromNext(s, pos + 1); }
  }

  /** There is one field more than there are colons. */
  lemma {:induction false} OneMoreThanColons(s: string, pos: nat)
    requires pos <= |s|
    ensures |Split(s, pos)| == Colons(s, pos) + 1
    decreases |s| - pos
  {
    ColonsFromNext(s, pos);
    if Find(s, pos) < |s| { OneMoreThanColons(s, Find(s, pos) + 1); }
  }

  lemma {:induction false} FewColons(s: string, pos: nat)
    requires pos <= |s|
    ensures Colons(s, pos) <= |s| - pos
    ensures Colons(s, pos) == |s| - pos <==> forall i :: pos <= i < |s| ==> s[i] == DELIMITER
    decreases |s| - pos
  {
    if pos < |s| { FewColons(s, pos + 1); }
  }

  /** The bytes fit the buffer, which is as long as the text, exactly if the text has something besides colons. */
  lemma FitsExactly(s: string)
    ensures |Parse(s, 0)| <= |s| <==> exists i :: 0 <= i < |s| && s[i] != DELIMITER
  {
    OneMoreThanColons(s, 0);
    FewColons(s, 0);
  }

  // ---------------------------------------------------------------- the loop

  lemma {:induction false} SkipSpacesColon(f: string, i: nat)
    requires i <= |f|
    ensures SkipSpaces(f + [DELIMITER], i) == SkipSpaces(f, i)
    decreases |f| - i
  {
    if i < |f| { SkipSpacesColon(f, i + 1); }
  }

  lemma {:induction false} ValueColon(v: nat, f: string, i: nat)
    requires i <= |f|
    ensures Value(v, f + [DELIMITER], i) == Value(v, f, i)
    decreases |f| - i
  {
    if i < |f| && HexDigit(f[i]) >= 0 { ValueColon(16 * v + HexDigit(f[i]), f, i + 1); }
  }

  lemma SignsColon(f: string, i: nat)
    requires i <= |f|
    ensures Minus(f + [DELIMITER], i) == Minus(f, i) && Plus(f + [DELIMITER], i) == Plus(f, i)
    ensures HexPrefix(f + [DELIMITER], i) == HexPrefix(f, i)
  {
  }

  /** The colon left at the end of a field does not change its number. */
  lemma ScanColon(f: string)
    ensures Scan(f + [DELIMITER]) == Scan(f)
  {
    SkipSpacesColon(f, 0);
    var t := SkipSpaces(f, 0);
    SignsColon(f, t);
    var u := if Minus(f, t) || Plus(f, t) then t + 1 else t;
    SignsColon(f, u);
    ValueColon(0, f, if HexPrefix(f, u) then u + 2 else u);
  }

  class AidBuffer {
    var mBuffer: array<Byte>
    var mBufferLen: nat

    /** Without a character besides colons the only writes would be outside the buffer. */
    constructor (aid: string)
      requires exists i :: 0 <= i < |aid| && aid[i] != DELIMITER
      ensures fresh(mBuffer) && mBuffer.Length == |aid| && mBufferLen <= mBuffer.Length
      ensures mBuffer[..mBufferLen] == Parse(aid, 0) && mBufferLen == Colons(aid, 0) + 1
    {
      FitsExactly(aid);
      LengthIsColons(aid);
      mBuffer := new Byte[|aid|];
      mBufferLen := 0;
      new;
      mBufferLen := Fill(aid, mBuffer);
    }

    /** The loop: it ends, since pos1 only goes up, and every store is inside the buffer. */
    static method Fill(aid: string, buffer: array<Byte>) returns (len: nat)
      requires buffer.Length >= |Parse(aid, 0)|
      modifies buffer
      ensures len == |Parse(aid, 0)| && buffer[..len] == Parse(aid, 0)
    {
      ghost var bytes := Parse(aid, 0);
      len := 0;
      var pos1: nat := 0;
      var pos2 := Find(aid, pos1);
      var going := true;
      while going
        invariant pos1 <= |aid| && pos2 == Find(aid, pos1) && len <= |bytes|
        invariant bytes[len..] == if going then Parse(aid, pos1) else []
        invariant buffer[..len] == bytes[..len]
        decreases going, |aid| - pos1
      {
        var num;
        ghost var rest := bytes[len..];
        num, pos1, pos2, going := NextNumber(aid, pos1, pos2);
        assert bytes[len] == rest[0] && bytes[len + 1..] == rest[1..];
        buffer[len] := num;
        len := len + 1;
      }
    }

    /** The loop's body, but for the store: sscanf on the text up to and with the next colon, or to the end. */
    static method NextNumber(aid: string, pos1: nat, pos2: nat) returns (num: Byte, next1: nat, next2: nat, going: bool)
      requires pos1 <= |aid| && pos2 == Find(aid, pos1)
      ensures next1 <= |aid| && next2 == Find(aid, next1) && (going ==> pos1 < next1)
      ensures Parse(aid, pos1) == [num] + if going then Parse(aid, next1) else []
    {
      ParseOnce(aid, pos1);
      if pos2 == |aid| {
        assert aid[pos1..] == aid[pos1..pos2];
        num := Scan(aid[pos1..]);
        next1, next2, going := pos1, pos2, false;
      } else {
        ScanColon(aid[pos1..pos2]);
        assert aid[pos1..pos2 + 1] == aid[pos1..pos2] + [DELIMITER];
        num := Scan(aid[pos1..pos2 + 1]);
        next1 := pos2 + 1;
        next2 := Find(aid, next1);
        going := true;
      }
    }
  }

  lemma LengthIsColons(s: string)
    ensures |Parse(s, 0)| == Colons(s, 0) + 1
  {
    OneMoreThanColons(s, 0);
  }

  // ---------------------------------------------------------------- round trip

  const LOWER := "0123456789abcdef"
  const UPPER := "0123456789ABCDEF"

  function TwoDigits(b: Byte, upper: bool): string {
    var digits := if upper then UPPER else LOWER;
    [digits[b / 16], digits[b % 16]]
  }

  function HexText(bytes: seq<Byte>, upper: bool): string
    requires bytes != []
  {
    Join(seq(|bytes|, (i: int) requires 0 <= i < |bytes| => TwoDigits(bytes[i], upper)))
  }

  lemma DigitOfNibble(n: nat)
    requires n < 16
    ensures HexDigit(LOWER[n]) == n && HexDigit(UPPER[n]) == n
    ensures !Space(LOWER[n]) && !Space(UPPER[n]) && LOWER[n] !in "+-:xX" && UPPER[n] !in "+-:xX"
  {
  }

  lemma ScanTwoDigits(b: Byte, upper: bool)
    ensures Scan(TwoDigits(b, upper)) == b && Plain(TwoDigits(b, upper))
  {
    DigitOfNibble(b / 16);
    DigitOfNibble(b % 16);
    var s := TwoDigits(b, upper);
    assert SkipSpaces(s, 0) == 0 && !HexPrefix(s, 0);
    assert Value(0, s, 0) == Value(b / 16, s, 1) == Value(b, s, 2);
  }

  /** Parsing the two-digit colon-separated text of any bytes, in either case, gives them back. */
  lemma RoundTrip(bytes: seq<Byte>, upper: bool)
    requires bytes != []
    ensures Parse(HexText(bytes, upper), 0) == bytes
    ensures exists i :: 0 <= i < |HexText(bytes, upper)| && HexText(bytes, upper)[i] != DELIMITER
  {
    var fields := seq(|bytes|, (i: int) requires 0 <= i < |bytes| => TwoDigits(bytes[i], upper));
    forall i | 0 <= i < |bytes| ensures Scan(fields[i]) == bytes[i] && Plain(fields[i]) {
      ScanTwoDigits(bytes[i], upper);
    }
    SplitOfJoin(fields);
    forall i | 0 <= i < |bytes| ensures Numbers(fields)[i] == bytes[i] { NumbersAt(fields, i); }
    DigitOfNibble(bytes[0] / 16);
    assert HexText(bytes, upper)[0] == fields[0][0];
  }

  lemma {:induction false} SkipsTo(s: string, i: nat, n: nat)
    requires i <= n < |s| && !Space(s[n]) && forall k :: i <= k < n ==> Space(s[k])
    ensures SkipSpaces(s, i) == n
    decreases n - i
  {
    if i < n { SkipsTo(s, i + 1, n); }
  }

  /** Two digits d of byte b. */
  predicate DigitsOf(d: string, b: Byte) {
    && |d| == 2 && HexDigit(d[0]) == b / 16 && HexDigit(d[1]) == b % 16
    && !Space(d[0]) && d[0] != '+' && d[0] != '-' && d[1] != 'x' && d[1] != 'X'
  }

  lemma TwoDigitsAre(b: Byte, upper: bool)
    ensures DigitsOf(TwoDigits(b, upper), b)
  {
    DigitOfNibble(b / 16);
    DigitOfNibble(b % 16);
  }

  lemma ValueAtEnd(s: string, n: nat, b: Byte)
    requires n + 2 == |s| && DigitsOf(s[n..], b)
    ensures Value(0, s, n) == b && !HexPrefix(s, n) && !Space(s[n]) && !Minus(s, n) && !Plus(s, n)
  {
    assert s[n] == s[n..][0] && s[n + 1] == s[n..][1];
    assert Value(0, s, n) == Value(b / 16, s, n + 1) == Value(b, s, n + 2);
  }

  /** White space before t, a sign from t to u, 0x from u to n, and the two digits of b from there: what is in front of
      the digits is read over, each part there or not, and a minus negates the byte. */
  lemma ScanForms(s: string, t: nat, u: nat, n: nat, b: Byte)
    requires t <= u <= n && n + 2 == |s| && DigitsOf(s[n..], b)
    requires forall k :: 0 <= k < t ==> s[k] in {' ', '\t', '\n', '\r'}
    requires u == t || (u == t + 1 && (s[t] == '+' || s[t] == '-'))
    requires n == u || (n == u + 2 && s[u] == '0' && (s[u + 1] == 'x' || s[u + 1] == 'X'))
    ensures Scan(s) == if u == t + 1 && s[t] == '-' then (256 - b) % 256 else b
  {
    ValueAtEnd(s, n, b);
    SkipsTo(s, 0, t);
  }
}
