/** The field splitter of NMEA 0183 sentences (gps/nmea_parse.cpp). */
module NmeaSplit {

  const BUFFER := 100
  const ID_LENGTH := 6

  /** The sentence kinds the caller may look for. */
  datatype Kind = Rmc | Gsv | Gga | Other

  datatype Field = Field(index: nat, text: string)

  // ---- what splitting means ----

  predicate CommaFree(s: string) {
    ',' !in s
  }

  /** Fields written out one after the other, each closed by a comma. */
  function Join(fs: seq<string>): string {
    if fs == [] then "" else Join(fs[..|fs| - 1]) + fs[|fs| - 1] + ","
  }

  /** The fields of a text that a comma closes. */
  function Fields(s: string): seq<string> {
    if s == "" then []
    else
      var last, before := s[|s| - 1], s[..|s| - 1];
      if last == ',' then Fields(before) + [Rest(before)] else Fields(before)
  }

  /** What follows the last comma. */
  function Rest(s: string): string {
    if s == "" then ""
    else
      var last, before := s[|s| - 1], s[..|s| - 1];
      if last == ',' then "" else Rest(before) + [last]
  }

  /** Splitting loses nothing: joined again, the fields and the rest are the text. */
  lemma {:induction false} JoinOfFields(s: string)
    ensures Join(Fields(s)) + Rest(s) == s
    ensures CommaFree(Rest(s)) && forall f :: f in Fields(s) ==> CommaFree(f)
  {
    if s != "" {
      var last, before := s[|s| - 1], s[..|s| - 1];
      JoinOfFields(before);
      assert s == before + [last];
      if last == ',' {
        var fs := Fields(before) + [Rest(before)];
        assert fs[..|fs| - 1] == Fields(before);
      }
    }
  }

  lemma {:induction false} FieldsOfRest(fs: seq<string>, r: string)
    requires CommaFree(r) && Fields(Join(fs)) == fs && Rest(Join(fs)) == ""
    ensures Fields(Join(fs) + r) == fs && Rest(Join(fs) + r) == r
  {
    var s := Join(fs) + r;
    if r == "" {
      assert s == Join(fs);
    } else {
      var shorter := r[..|r| - 1];
      assert s[..|s| - 1] == Join(fs) + shorter && s[|s| - 1] == r[|r| - 1];
      FieldsOfRest(fs, shorter);
      assert shorter + [r[|r| - 1]] == r;
    }
  }

  /** And there is no other way to split it: any comma-free fields and rest that make up the text are these. */
  lemma {:induction false} SplitUnique(fs: seq<string>, r: string)
    requires CommaFree(r) && forall f :: f in fs ==> CommaFree(f)
    ensures Fields(Join(fs) + r) == fs && Rest(Join(fs) + r) == r
  {
    if fs == [] {
      FieldsOfRest(fs, r);
    } else {
      var before, last := fs[..|fs| - 1], fs[|fs| - 1];
      assert fs == before + [last];
      SplitUnique(before, last);
      var s := Join(fs);
      assert s[..|s| - 1] == Join(before) + last && s[|s| - 1] == ',';
      FieldsOfRest(fs, r);
    }
  }

  /** What is split from a longer text starts with what is split from a prefix. */
  lemma {:induction false} FieldsOfPrefix(s: string, n: nat)
    requires n <= |s|
    ensures Fields(s[..n]) <= Fields(s)
  {
    if n == |s| {
      assert s[..n] == s;
    } else {
      var before := s[..|s| - 1];
      assert before[..n] == s[..n];
      FieldsOfPrefix(before, n);
    }
  }

  // ---- what the parser hands on ----

  /** An empty field is handed on as a zero. */
  function Shown(f: string): (t: string)
    ensures t != ""
  {
    if f == "" then "0" else f
  }

  function Numbered(fs: seq<string>): (r: seq<Field>)
    ensures |r| == |fs|
  {
    seq(|fs|, i requires 0 <= i < |fs| => Field(i, Shown(fs[i])))
  }

  /** analysis_msg_type refuses to go on: a position sentence without a fix. */
  predicate Refused(kind: Kind, f: Field)
    requires f.text != ""
  {
    kind == Rmc && f.index == 2 && f.text[0] == '0'
  }

  /** The part of the data that counts: the first len characters, and the character after them when the parser
      looks at it and finds the comma that closes the last field. */
  function Seen(data: string, len: nat): string
    requires 0 < len < |data|
  {
    if data[len - 1] != ',' && data[len] == ',' then data[..len + 1] else data[..len]
  }

  /** How many of the fields are handed on: up to and including the one that is refused. */
  function Handled(kind: Kind, fs: seq<string>): (n: nat)
    ensures n <= |fs|
  {
    if |fs| > 2 && Refused(kind, Field(2, Shown(fs[2]))) then 3 else |fs|
  }

  predicate Stops(kind: Kind, fs: seq<string>) {
    |fs| > 2 && Refused(kind, Field(2, Shown(fs[2])))
  }

  /** A field that is handed on does not fit the buffer with its terminator, or the unterminated rest, when it is read
      at all, does not fit without. */
  predicate Overruns(kind: Kind, fs: seq<string>, rest: string) {
    || (exists k :: 0 <= k < Handled(kind, fs) && |fs[k]| >= BUFFER)
    || (!Stops(kind, fs) && |rest| > BUFFER)
  }

  predicate AllFit(fs: seq<string>) {
    forall k :: 0 <= k < |fs| ==> |fs[k]| < BUFFER
  }

  /** The loop's state before character i: the closed fields are the first ones, none of them was refused, and the
      buffer holds what followed them. */
  ghost predicate Splitting(kind: Kind, data: string, len: nat, i: nat, fs: seq<string>, part: string) {
    && 0 < len < |data| && i <= len + 1 && i <= |data|
    && data[..i] == Join(fs) + part && CommaFree(part) && (forall f :: f in fs ==> CommaFree(f))
    && (part != "" && i < |data| ==> data[i] != ',')
    && (i == len + 1 ==> data[len] == ',' && data[len - 1] != ',' && part == "")
    && (0 < i && part == "" ==> data[i - 1] == ',')
    && !Stops(kind, fs)
  }

  lemma Begins(kind: Kind, data: string, len: nat)
    requires 0 < len < |data|
    ensures Splitting(kind, data, len, 0, [], data[0..0]) && Numbered([]) == [] && AllFit([])
  {
  }

  lemma SplittingEnds(kind: Kind, data: string, len: nat, i: nat, fs: seq<string>, part: string)
    requires Splitting(kind, data, len, i, fs, part) && i >= len
    ensures fs == Fields(Seen(data, len)) && part == Rest(Seen(data, len)) && Handled(kind, fs) == |fs| &&
            !Stops(kind, fs)
    ensures AllFit(fs) && |part| <= BUFFER ==> !Overruns(kind, fs, part)
  {
    SplitUnique(fs, part);
  }

  /** Field f, after fs, is closed by the comma just before character i. */
  ghost predicate Closes(data: string, len: nat, i: nat, fs: seq<string>, f: string) {
    && 0 < len < |data| && 0 < i <= len + 1 && i <= |data|
    && data[..i] == Join(fs) + f + "," && CommaFree(f) && (forall g :: g in fs ==> CommaFree(g))
    && data[i - 1] == ','
    && (i == len + 1 ==> data[len - 1] != ',')
  }

  /** However the text goes on, it splits into the fields closed so far and then others. */
  lemma ClosedIsField(data: string, len: nat, i: nat, fs: seq<string>, f: string)
    requires Closes(data, len, i, fs, f)
    ensures fs + [f] <= Fields(Seen(data, len))
    ensures data[..i] == Join(fs + [f])
  {
    var all := fs + [f];
    assert all[..|all| - 1] == fs;
    SplitUnique(all, "");
    assert Join(all) + "" == data[..i] == Seen(data, len)[..i];
    FieldsOfPrefix(Seen(data, len), i);
  }

  lemma EmptyField(kind: Kind, data: string, len: nat, i: nat, fs: seq<string>, part: string)
    requires Splitting(kind, data, len, i, fs, part) && i < len && data[i] == ','
    ensures part == "" && Closes(data, len, i + 1, fs, "") && !Stops(kind, fs) && Shown("") == "0"
  {
    assert data[..i + 1] == data[..i] + ",";
  }

  lemma ClosedField(kind: Kind, data: string, len: nat, i: nat, fs: seq<string>, part: string)
    requires Splitting(kind, data, len, i, fs, part) && i < len && data[i] != ',' && data[i + 1] == ','
    ensures Closes(data, len, i + 2, fs, part + [data[i]]) && !Stops(kind, fs)
    ensures Shown(part + [data[i]]) == part + [data[i]]
  {
    assert data[..i + 2] == data[..i] + [data[i]] + ",";
    assert Join(fs) + part + [data[i]] + "," == Join(fs) + (part + [data[i]]) + ",";
  }

  lemma LongerField(kind: Kind, data: string, len: nat, i: nat, fs: seq<string>, part: string)
    requires Splitting(kind, data, len, i, fs, part) && i < len && data[i] != ',' && data[i + 1] != ','
    ensures Splitting(kind, data, len, i + 1, fs, part + [data[i]])
  {
    assert data[..i + 1] == data[..i] + [data[i]];
    assert Join(fs) + part + [data[i]] == Join(fs) + (part + [data[i]]);
  }

  /** A closed field is handed on with its number; unless it is refused the loop goes on behind it. */
  lemma HandedOn(kind: Kind, data: string, len: nat, i: nat, fs: seq<string>, f: string)
    requires Closes(data, len, i, fs, f) && !Stops(kind, fs)
    ensures Numbered(fs + [f]) == Numbered(fs) + [Field(|fs|, Shown(f))]
    ensures AllFit(fs) && |f| < BUFFER ==> AllFit(fs + [f])
    ensures !Refused(kind, Field(|fs|, Shown(f))) ==> Splitting(kind, data, len, i, fs + [f], data[i..i])
    ensures Refused(kind, Field(|fs|, Shown(f))) ==>
            var all := Fields(Seen(data, len));
            && Stops(kind, all) && Numbered(all)[..Handled(kind, all)] == Numbered(fs + [f])
            && (AllFit(fs) && |f| < BUFFER ==> !Overruns(kind, all, Rest(Seen(data, len))))
  {
    ClosedIsField(data, len, i, fs, f);
    NumberedOne(fs, f);
    NumberedPrefix(fs + [f], Fields(Seen(data, len)));
  }

  /** However a text goes on, what followed its closed fields starts the next field, or the rest. */
  lemma {:induction false} PartStays(s: string, i: nat, fs: seq<string>, part: string)
    requires i <= |s| && s[..i] == Join(fs) + part && CommaFree(part) && forall f :: f in fs ==> CommaFree(f)
    ensures fs <= Fields(s) && part <= (if |Fields(s)| > |fs| then Fields(s)[|fs|] else Rest(s))
  {
    if i == |s| {
      SplitUnique(fs, part);
      assert s == s[..i];
    } else {
      var before := s[..|s| - 1];
      assert before[..i] == s[..i];
      PartStays(before, i, fs, part);
    }
  }

  /** A part that is too long already makes an overrun of the whole. */
  lemma LongPartOverruns(kind: Kind, data: string, len: nat, i: nat, fs: seq<string>, part: string)
    requires Splitting(kind, data, len, i, fs, part) && i < len && data[i] != ','
    requires |part| >= BUFFER || (|part| + 1 >= BUFFER && data[i + 1] == ',')
    ensures Overruns(kind, Fields(Seen(data, len)), Rest(Seen(data, len)))
    ensures Numbered(fs) <= Numbered(Fields(Seen(data, len)))[..Handled(kind, Fields(Seen(data, len)))]
  {
    var all := Seen(data, len);
    var longer := part + [data[i]];
    assert data[..i + 1] == data[..i] + [data[i]] && data[..i + 1] == all[..i + 1];
    assert Join(fs) + part + [data[i]] == Join(fs) + longer;
    PartStays(all, i + 1, fs, longer);
    if data[i + 1] == ',' {
      ClosedField(kind, data, len, i, fs, part);
      ClosedIsField(data, len, i + 2, fs, longer);
    }
    HandledBeyond(kind, fs, Fields(all));
    NumberedPrefix(fs, Fields(all));
    if |Fields(all)| > |fs| {
      assert |Fields(all)[|fs|]| >= |longer|;
    }
  }

  /** Fields none of which was refused are all handed on, and so is the next one. */
  lemma HandledBeyond(kind: Kind, fs: seq<string>, all: seq<string>)
    requires fs <= all && !Stops(kind, fs)
    ensures Handled(kind, all) >= |fs|
    ensures |all| > |fs| ==> Handled(kind, all) > |fs|
    ensures |all| == |fs| ==> !Stops(kind, all)
  {
    if |fs| > 2 {
      assert all[2] == fs[2];
    }
  }

  lemma NumberedOne(fs: seq<string>, f: string)
    ensures Numbered(fs + [f]) == Numbered(fs) + [Field(|fs|, Shown(f))]
  {
  }

  lemma NumberedPrefix(fs: seq<string>, all: seq<string>)
    requires fs <= all
    ensures Numbered(fs) == Numbered(all)[..|fs|]
  {
  }

  /** analysis_msg_type: the answer of the field handlers, whose stores are not part of this model. */
  method AnalyseField(kind: Kind, count: nat, text: string) returns (ret: int)
    requires text != ""
    ensures ret == if Refused(kind, Field(count, text)) then -1 else 0
  {
    match kind {
      case Rmc =>
        if count == 2 && text[0] == '0' {
          return -1;
        }
      case Gsv =>
      case Gga =>
      case Other =>
    }
    return 0;
  }

  /** A closed field is analysed, and recorded as handed on. */
  method HandOn(kind: Kind, count: nat, text: string, before: seq<Field>, ghost data: string, ghost len: nat,
      ghost i: nat, ghost fs: seq<string>, ghost f: string)
    returns (ret: int, handed: seq<Field>)
    requires Closes(data, len, i, fs, f) && !Stops(kind, fs) && text == Shown(f) && count == |fs| &&
             before == Numbered(fs)
    ensures handed == Numbered(fs + [f]) && (ret == 0 || ret == -1)
    ensures AllFit(fs) && |f| < BUFFER ==> AllFit(fs + [f])
    ensures ret == 0 ==> Splitting(kind, data, len, i, fs + [f], data[i..i])
    ensures ret == -1 ==>
            var all := Fields(Seen(data, len));
            && Stops(kind, all) && Numbered(all)[..Handled(kind, all)] == handed
            && (AllFit(fs) && |f| < BUFFER ==> !Overruns(kind, all, Rest(Seen(data, len))))
  {
    hide Splitting, Fields, Join, Rest, Numbered, Seen, Stops, Handled, Refused, CommaFree, Overruns, AllFit, Shown;
    HandedOn(kind, data, len, i, fs, f);
    ret := AnalyseField(kind, count, text);
    handed := before + [Field(count, text)];
  }

  /** The last character and the terminator go into the buffer; the string it then holds is returned. */
  method CloseText(buffer: array<char>, pos: nat, last: char) returns (text: string)
    requires pos + 1 < buffer.Length
    modifies buffer
    ensures text == old(buffer[..pos]) + [last]
  {
    buffer[pos], buffer[pos + 1] := last, '\0';
    text := buffer[..pos + 1];
  }

  /** The parser's answer to comma fields fs and an unterminated rest: the fields are handed on in order, numbered from
      0 and an empty one as a zero. All of them are, or the first three of a position sentence without a position, which
      is refused; and the 100 characters of the buffer are overrun by a field with its terminator or by the rest. */
  ghost predicate Answers(
    kind: Kind, fs: seq<string>, rest: string, ret: int, handed: seq<Field>, overrun: bool)
  {
    var noPosition := kind == Rmc && |fs| > 2 && (fs[2] == "" || fs[2][0] == '0');
    var n := if noPosition then 3 else |fs|;
    && (overrun <==> (exists k :: 0 <= k < n && |fs[k]| >= 100) || (!noPosition && |rest| > 100))
    && (!overrun ==> |handed| == n && ret == if fs == [] || noPosition then -1 else 0)
    && |handed| <= n
    && forall k :: 0 <= k < |handed| ==> handed[k] == Field(k, if fs[k] == "" then "0" else fs[k])
  }

  lemma Answered(kind: Kind, fs: seq<string>, rest: string, ret: int, handed: seq<Field>, overrun: bool)
    requires overrun <==> Overruns(kind, fs, rest)
    requires !overrun ==>
             handed == Numbered(fs)[..Handled(kind, fs)] && ret == if fs == [] || Stops(kind, fs) then -1 else 0
    requires overrun ==> handed <= Numbered(fs)[..Handled(kind, fs)]
    ensures Answers(kind, fs, rest, ret, handed, overrun)
  {
  }

  /** gps_nmea_data_parse. The source does not check the length of a field: overrun says that it writes outside its
      buffer, and what it does from there on is not modelled. */
  method Parse(kind: Kind, data: string, len: int) returns (ret: int, handed: seq<Field>, overrun: bool)
    requires len > 6 ==> len < |data|
    ensures len <= 6 ==> ret == -1 && handed == [] && !overrun
    ensures len > 6 ==> Answers(kind, Fields(Seen(data, len)), Rest(Seen(data, len)), ret, handed, overrun)
  {
    hide Splitting, Closes, Fields, Join, Rest, Numbered, Seen, Stops, Handled, Refused, CommaFree, Overruns, AllFit,
         Shown, Answers;
    ret, handed, overrun := -1, [], false;
    if len <= ID_LENGTH {
      return;
    }
    ghost var all, rest := Fields(Seen(data, len)), Rest(Seen(data, len));
    var buffer := new char[BUFFER](_ => '\0');
    var pos, count, i := 0, 0, 0;
    ghost var fs: seq<string> := [];
    Begins(kind, data, len);
    while i < len
      invariant 0 <= i <= len + 1 && 0 <= pos <= i && pos <= BUFFER && count == |fs| && !overrun
      invariant Splitting(kind, data, len, i, fs, data[i - pos..i]) && buffer[..pos] == data[i - pos..i] && AllFit(fs)
      invariant handed == Numbered(fs) && ret == if fs == [] then -1 else 0
      decreases len + 1 - i
    {
      ghost var part := data[i - pos..i];
      if data[i] == ',' {
        buffer[0], buffer[1] := '0', '\0';
        pos := 0;
        EmptyField(kind, data, len, i, fs, part);
        ret, handed := HandOn(kind, count, "0", handed, data, len, i + 1, fs, "");
        fs := fs + [""];
        if ret < 0 {
          Answered(kind, all, rest, ret, handed, overrun);
          return;
        }
        count := count + 1;
        i := i + 1;
      } else {
        ghost var longer := part + [data[i]];
        if pos >= BUFFER || (pos + 1 >= BUFFER && data[i + 1] == ',') {
          LongPartOverruns(kind, data, len, i, fs, part);
          overrun := true;
          Answered(kind, all, rest, ret, handed, overrun);
          return;
        }
        if data[i + 1] == ',' {
          var text := CloseText(buffer, pos, data[i]);
          assert text == longer;
          pos := 0;
          ClosedField(kind, data, len, i, fs, part);
          ret, handed := HandOn(kind, count, text, handed, data, len, i + 2, fs, longer);
          fs := fs + [longer];
          if ret < 0 {
            Answered(kind, all, rest, ret, handed, overrun);
          return;
          }
          count := count + 1;
          i := i + 2;
        } else {
          buffer[pos] := data[i];
          pos := pos + 1;
          LongerField(kind, data, len, i, fs, part);
          i := i + 1;
          assert data[i - pos..i] == longer == buffer[..pos];
        }
      }
    }
    SplittingEnds(kind, data, len, i, fs, data[i - pos..i]);
    assert Numbered(fs)[..|fs|] == Numbered(fs);
    Answered(kind, all, rest, ret, handed, overrun);
  }

  // ---- digits written into the track record ----

  /** A decimal digit as the record stores it. */
  function Scrambled(d: nat): bv8
    requires d < 10
  {
    (d + 0x30) as bv8 ^ 0xAA
  }

  function Unscrambled(b: bv8): int {
    (b ^ 0xAA) as int - 0x30
  }

  lemma UnscrambleScrambled(d: nat)
    requires d < 10
    ensures Unscrambled(Scrambled(d)) == d
  {
    var b := (d + 0x30) as bv8;
    TwiceXor(b);
  }

  lemma TwiceXor(b: bv8)
    ensures (b ^ 0xAA) ^ 0xAA == b
  {
  }

  function Pow10(n: nat): (p: nat)
    ensures p > 0
  {
    if n == 0 then 1 else 10 * Pow10(n - 1)
  }

  /** The number a reader of the record takes from it. */
  function Decoded(s: seq<bv8>): int {
    if s == [] then 0 else Decoded(s[..|s| - 1]) * 10 + Unscrambled(s[|s| - 1])
  }

  /** The low digits of n, as many as there is room for. */
  function Encoded(n: nat, width: nat): (s: seq<bv8>)
    ensures |s| == width
  {
    if width == 0 then [] else Encoded(n / 10, width - 1) + [Scrambled(n % 10)]
  }

  /** Reading back gives the number modulo the room: the number itself exactly when it fits. */
  lemma {:induction false} DecodeEncode(n: nat, width: nat)
    ensures Decoded(Encoded(n, width)) == n % Pow10(width)
    ensures Decoded(Encoded(n, width)) == n <==> n < Pow10(width)
  {
    if width > 0 {
      var s := Encoded(n, width);
      assert s[..|s| - 1] == Encoded(n / 10, width - 1);
      DecodeEncode(n / 10, width - 1);
      UnscrambleScrambled(n % 10);
      SplitDigit(n, Pow10(width - 1));
    }
  }

  /** What stands in the record: at each place the ASCII digit of n that belongs there, every bit pattern xored with
      0xAA. */
  lemma {:induction false} EncodedIsAscii(n: nat, width: nat, k: nat)
    requires k < width
    ensures (Encoded(n, width)[k] ^ 0xAA) as int == 0x30 + n / Pow10(width - 1 - k) % 10
  {
    if k < width - 1 {
      EncodedIsAscii(n / 10, width - 1, k);
      TensAgain(n, Pow10(width - 2 - k));
    } else {
      UnscrambleScrambled(n % 10);
    }
  }

  lemma TensAgain(n: nat, p: nat)
    requires p > 0
    ensures n / 10 / p == n / (10 * p)
  {
    var q, r := n / 10 / p, n / 10 % p;
    assert n / 10 == p * q + r;
    var s := r * 10 + n % 10;
    assert n == (10 * p) * q + s;
    SameQuotient(10 * p, q, s, n / (10 * p), n % (10 * p));
  }

  lemma SplitDigit(n: nat, p: nat)
    requires p > 0
    ensures n % (10 * p) == (n / 10 % p) * 10 + n % 10
  {
    var q := n / 10 / p;
    var r := n / 10 % p;
    assert n / 10 == p * q + r;
    assert n == (10 * p) * q + (r * 10 + n % 10);
    Remainder(10 * p, q, r * 10 + n % 10);
  }

  lemma Remainder(d: nat, q: nat, r: nat)
    requires r < d
    ensures (d * q + r) % d == r
  {
    var a := d * q + r;
    SameQuotient(d, q, r, a / d, a % d);
  }

  lemma SameQuotient(d: nat, q: int, r: nat, q': int, r': nat)
    requires r < d && r' < d && d * q + r == d * q' + r'
    ensures q == q' && r == r'
  {
    assert d * (q' - q) == d * q' - d * q && d * (q - q') == d * q - d * q';
    if q < q' {
      AtLeast(d, q' - q);
    } else if q' < q {
      AtLeast(d, q - q');
    }
  }

  lemma AtLeast(d: nat, k: nat)
    requires k > 0
    ensures d * k >= d
  {
  }

  /** The digit loops of text_data_copyfrom_amba_gps: from the last place to the first. */
  method EncodeDigits(n: nat, place: array<bv8>, first: nat)
    requires first <= place.Length
    modifies place
    ensures place[first..] == Encoded(n, place.Length - first)
    ensures place[..first] == old(place[..first])
  {
    hide Encoded, Scrambled;
    var rest := n;
    var i := place.Length;
    assert place[i..] == [];
    NoDigits(rest);
    while i > first
      invariant first <= i <= place.Length
      invariant Encoded(rest, i - first) + place[i..] == Encoded(n, place.Length - first)
      invariant place[..first] == old(place[..first])
    {
      i := i - 1;
      LastDigit(rest, i - first, place[i + 1..]);
      place[i] := Scrambled(rest % 10);
      assert place[i..] == [Scrambled(rest % 10)] + place[i + 1..];
      rest := rest / 10;
    }
    NoDigits(rest);
  }

  lemma NoDigits(n: nat)
    ensures Encoded(n, 0) == []
  {
  }

  lemma LastDigit(n: nat, width: nat, after: seq<bv8>)
    ensures Encoded(n, width + 1) + after == Encoded(n / 10, width) + ([Scrambled(n % 10)] + after)
  {
  }
}
