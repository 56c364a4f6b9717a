/** The wire format of payload lists: fields closed by a delimiter, and a parser that splits at it. */
module Wire {
  import opened Wrappers
  import opened Payloads
  import opened Decimal

  const DELIM := "@@@"

  datatype Parsed = Parsed(payloads: seq<Payload>) | Threw

  // ----- splitting at the delimiter -----

  /** Where the leftmost delimiter starts; the length of the string if there is none. */
  function FirstDelim(s: string): (i: nat)
    ensures i == |s| || i + 3 <= |s|
  {
    if |s| < 3 then |s|
    else if s[..3] == DELIM then 0
    else 1 + FirstDelim(s[1..])
  }

  /** `absl::StrSplit`. */
  function Split(s: string): (r: seq<string>)
    ensures r != []
    decreases |s|
  {
    var i := FirstDelim(s);
    if i == |s| then [s] else [s[..i]] + Split(s[i + 3..])
  }

  /** Fields, each closed by the delimiter. */
  function Join(fields: seq<string>): string {
    if fields == [] then "" else fields[0] + DELIM + Join(fields[1..])
  }

  /** A field that survives: it holds no delimiter, and does not end in the delimiter's character. */
  predicate Clean(f: string) {
    FirstDelim(f) == |f| && (f == "" || f[|f| - 1] != '@')
  }

  /** A clean field ends at the first delimiter after it. */
  lemma {:induction false} CleanField(f: string, rest: string)
    requires Clean(f)
    ensures FirstDelim(f + DELIM + rest) == |f|
  {
    var s := f + DELIM + rest;
    if f == "" {
      assert s[..3] == DELIM;
    } else {
      if |f| >= 3 {
        assert f[..3] == s[..3];
      } else {
        assert s[..3][|f| - 1] == f[|f| - 1];
      }
      assert s[..3] != DELIM;
      assert s[1..] == f[1..] + DELIM + rest;
      CleanTail(f);
      CleanField(f[1..], rest);
    }
  }

  lemma CleanTail(f: string)
    requires Clean(f) && f != ""
    ensures Clean(f[1..])
  {
    if |f| < 4 {
      assert |f[1..]| < 3;
    }
  }

  /** Whatever was split off before a delimiter is clean: an '@' at its end would have belonged to
      an earlier delimiter. */
  lemma {:induction false} BeforeDelim(s: string)
    requires FirstDelim(s) < |s|
    ensures Clean(s[..FirstDelim(s)])
  {
    var i := FirstDelim(s);
    var f := s[..i];
    if i > 0 {
      assert FirstDelim(s[1..]) == i - 1;
      BeforeDelim(s[1..]);
      assert s[1..][..i - 1] == f[1..];
      DelimHere(s);
      if |f| >= 3 {
        assert f[..3] == s[..3];
      }
      assert s[..3] != DELIM;
      assert i > 1 ==> f[|f| - 1] == f[1..][|f[1..]| - 1];
    }
  }

  lemma {:induction false} DelimHere(s: string)
    requires FirstDelim(s) < |s|
    ensures var i := FirstDelim(s); s[i] == '@' && s[i + 1] == '@' && s[i + 2] == '@'
  {
    if s[..3] == DELIM {
      assert s[0] == s[..3][0] && s[1] == s[..3][1] && s[2] == s[..3][2];
    } else {
      DelimHere(s[1..]);
    }
  }

  lemma EmptySplit()
    ensures Split("") == [""]
  {
  }

  lemma {:induction false} SplitJoin(fields: seq<string>)
    requires forall i :: 0 <= i < |fields| ==> Clean(fields[i])
    ensures Split(Join(fields)) == fields + [""]
  {
    hide Clean, FirstDelim;
    if fields == [] {
      EmptySplit();
    } else {
      var rest := Join(fields[1..]);
      CleanField(fields[0], rest);
      var s := fields[0] + DELIM + rest;
      assert s[..|fields[0]|] == fields[0] && s[|fields[0]| + 3..] == rest;
      SplitJoin(fields[1..]);
    }
  }

  lemma {:induction false} SplitClean(s: string)
    ensures forall i :: 0 <= i < |Split(s)| - 1 ==> Clean(Split(s)[i])
    decreases |s|
  {
    var i := FirstDelim(s);
    if i < |s| {
      BeforeDelim(s);
      SplitClean(s[i + 3..]);
    }
  }

  /** Splitting loses nothing: closing every part but the last with the delimiter gives the text
      back. */
  lemma {:induction false} SplitLossless(s: string)
    ensures var r := Split(s); Join(r[..|r| - 1]) + r[|r| - 1] == s
    decreases |s|
  {
    hide FirstDelim, Join;
    var i := FirstDelim(s);
    if i < |s| {
      SplitLossless(s[i + 3..]);
      DelimAt(s);
      JoinOneMore(s[..i], Split(s[i + 3..]));
      assert s == s[..i] + DELIM + s[i + 3..];
    } else {
      JoinNone();
      assert [s][..0] == [];
    }
  }

  lemma JoinOneMore(f: string, rest: seq<string>)
    requires rest != []
    ensures var r := [f] + rest;
            Join(r[..|r| - 1]) + r[|r| - 1] == f + DELIM + (Join(rest[..|rest| - 1]) + rest[|rest| - 1])
  {
    var r := [f] + rest;
    assert r[..|r| - 1][1..] == rest[..|rest| - 1];
  }

  lemma JoinNone()
    ensures Join([]) == ""
  {
  }

  lemma {:induction false} DelimAt(s: string)
    requires FirstDelim(s) < |s|
    ensures var i := FirstDelim(s); s[i..i + 3] == DELIM
  {
    if s[..3] != DELIM {
      DelimAt(s[1..]);
      var i := FirstDelim(s[1..]);
      assert s[1..][i..i + 3] == s[i + 1..i + 4];
    }
  }

  /** Three at-signs start at `j`. */
  predicate DelimStarts(s: string, j: nat) {
    j + 3 <= |s| && s[j] == '@' && s[j + 1] == '@' && s[j + 2] == '@'
  }

  /** The leftmost delimiter: there is one at the place found, unless that is the end of the text, and
      none before it. */
  lemma {:induction false} FirstDelimIsLeftmost(s: string)
    ensures FirstDelim(s) < |s| ==> DelimStarts(s, FirstDelim(s))
    ensures forall j :: 0 <= j < FirstDelim(s) ==> !DelimStarts(s, j)
  {
    if |s| >= 3 {
      DelimFront(s);
      if s[..3] != DELIM {
        FirstDelimIsLeftmost(s[1..]);
        forall j | 0 < j < FirstDelim(s)
          ensures !DelimStarts(s, j)
        {
          assert !DelimStarts(s[1..], j - 1);
        }
      }
    }
  }

  lemma DelimFront(s: string)
    requires |s| >= 3
    ensures s[..3] == DELIM <==> DelimStarts(s, 0)
  {
    assert s[..3] == [s[0], s[1], s[2]];
  }

  /** The last part holds no delimiter. With `SplitClean` and `SplitLossless` this determines the split. */
  lemma {:induction false} SplitRest(s: string)
    ensures var r := Split(s); var last := r[|r| - 1]; FirstDelim(last) == |last|
    decreases |s|
  {
    hide FirstDelim;
    var i := FirstDelim(s);
    if i < |s| {
      SplitRest(s[i + 3..]);
    }
  }

  // ----- payload lists -----

  function Fields(p: Payload): seq<string> {
    [ToString(p.timestamp), p.msgType, p.key, p.value]
  }

  function AllFields(l: seq<Payload>): seq<string> {
    if l == [] then [] else AllFields(l[..|l| - 1]) + Fields(l[|l| - 1])
  }

  /** The text of a list. */
  function Encode(l: seq<Payload>): string {
    Join(AllFields(l))
  }

  lemma {:induction false} JoinConcat(a: seq<string>, b: seq<string>)
    ensures Join(a + b) == Join(a) + Join(b)
  {
    if a == [] {
      assert a + b == b;
    } else {
      assert (a + b)[1..] == a[1..] + b;
      JoinConcat(a[1..], b);
    }
  }

  lemma JoinFields(p: Payload)
    ensures Join(Fields(p))
         == ToString(p.timestamp) + DELIM + p.msgType + DELIM + p.key + DELIM + p.value + DELIM
  {
    var f := Fields(p);
    assert Join(f[4..]) == "";
    assert Join(f[3..]) == p.value + DELIM + Join(f[3..][1..]) && f[3..][1..] == f[4..];
    assert Join(f[2..]) == p.key + DELIM + Join(f[2..][1..]) && f[2..][1..] == f[3..];
    assert Join(f[1..]) == p.msgType + DELIM + Join(f[1..][1..]) && f[1..][1..] == f[2..];
  }

  /** The text of one payload is its timestamp, message type, key and value in that order, each closed
      by three at-signs. */
  lemma EncodeOne(p: Payload)
    ensures Encode([p]) == ToString(p.timestamp) + "@@@" + p.msgType + "@@@" + p.key + "@@@" + p.value + "@@@"
  {
    hide ToString, Join;
    assert [p][..0] == [];
    assert AllFields([p]) == [] + Fields(p) == Fields(p);
    JoinFields(p);
  }

  /** The text of a list is the texts of its payloads in order. */
  lemma {:induction false} EncodeConcat(a: seq<Payload>, b: seq<Payload>)
    ensures AllFields(a + b) == AllFields(a) + AllFields(b)
    ensures Encode(a + b) == Encode(a) + Encode(b)
  {
    hide Join, Fields;
    if b == [] {
      assert a + b == a && AllFields(a) + [] == AllFields(a);
    } else {
      assert (a + b)[..|a + b| - 1] == a + b[..|b| - 1];
      EncodeConcat(a, b[..|b| - 1]);
    }
    JoinConcat(AllFields(a), AllFields(b));
  }

  /** `serialize_payload_l`. */
  method Serialize(l: seq<Payload>) returns (s: string)
    ensures s == Encode(l)
  {
    hide Join, Fields, ToString;
    s := "";
    JoinNone();
    for i := 0 to |l|
      invariant s == Encode(l[..i])
    {
      var payload := l[i];
      assert l[..i + 1][..i] == l[..i];
      JoinConcat(AllFields(l[..i]), Fields(payload));
      JoinFields(payload);
      s := s + (ToString(payload.timestamp) + DELIM + payload.msgType + DELIM
                + payload.key + DELIM + payload.value + DELIM);
    }
    assert l[..|l|] == l;
  }

  /** `KvToPayload`. */
  function KvToPayload(key: string, value: string, timer: int, msgType: string): Payload {
    Payload(key, value, timer, msgType)
  }

  /** The first `n` payloads of a list of fields, four fields each. */
  function FromFields(fields: seq<string>, n: nat): Parsed
    requires 4 * n <= |fields|
  {
    if n == 0 then Parsed([])
    else
      var before := FromFields(fields, n - 1);
      var i := 4 * (n - 1);
      var t := Stoi(fields[i]);
      if before.Threw? || t.None? then Threw
      else Parsed(before.payloads + [KvToPayload(fields[i + 2], fields[i + 3], t.value, fields[i + 1])])
  }

  /** What a text is read as: an empty list if the number of fields is not a multiple of four. */
  function Decode(s: string): Parsed {
    var split := Split(s);
    if (|split| - 1) % 4 != 0 then Parsed([]) else FromFields(split, (|split| - 1) / 4)
  }

  /** The timestamp of payload `n` among the fields, if it parses. */
  function TimeAt(fields: seq<string>, n: nat): Option<int>
    requires 4 * n < |fields|
  {
    Stoi(fields[4 * n])
  }

  /** `p` is payload `n` of the fields. */
  predicate PayloadAt(fields: seq<string>, n: nat, p: Payload)
    requires 4 * n + 3 < |fields|
  {
    && TimeAt(fields, n) == Some(p.timestamp)
    && p.msgType == fields[4 * n + 1] && p.key == fields[4 * n + 2] && p.value == fields[4 * n + 3]
  }

  /** `r` is the first `n` payloads, with their fields in place; or one of their timestamps does not
      parse, and `r` says so. */
  ghost predicate ReadsFirst(fields: seq<string>, n: nat, r: Parsed)
    requires 4 * n <= |fields|
  {
    if exists i :: 0 <= i < n && TimeAt(fields, i).None? then r == Threw
    else r.Parsed? && |r.payloads| == n && forall i :: 0 <= i < n ==> PayloadAt(fields, i, r.payloads[i])
  }

  /** What a list of fields is read as: nothing if they are not four for each payload. */
  ghost predicate ReadsAs(fields: seq<string>, r: Parsed) {
    if |fields| % 4 != 0 then r == Parsed([]) else ReadsFirst(fields, |fields| / 4, r)
  }

  lemma {:induction false} FromFieldsReads(fields: seq<string>, n: nat)
    requires 4 * n <= |fields|
    ensures ReadsFirst(fields, n, FromFields(fields, n))
  {
    hide Stoi;
    if n > 0 {
      FromFieldsReads(fields, n - 1);
      assert TimeAt(fields, n - 1) == Stoi(fields[4 * (n - 1)]);
    }
  }

  lemma ReadsPrefix(fields: seq<string>, more: seq<string>, n: nat, r: Parsed)
    requires 4 * n == |fields| && fields <= more && ReadsFirst(more, n, r)
    ensures ReadsFirst(fields, n, r)
  {
    hide Stoi;
    assert forall i :: 0 <= i < n ==> TimeAt(fields, i) == TimeAt(more, i);
  }

  /** What any text is read as. The fields are those the split finds before a delimiter (`SplitClean`,
      `SplitLossless`); what follows the last one is ignored. */
  lemma DecodeReads(s: string)
    ensures var split := Split(s); ReadsAs(split[..|split| - 1], Decode(s))
  {
    hide Stoi, Split, FromFields, ReadsFirst;
    var split := Split(s);
    if (|split| - 1) % 4 == 0 {
      var n := (|split| - 1) / 4;
      FromFieldsReads(split, n);
      ReadsPrefix(split[..|split| - 1], split, n, FromFields(split, n));
    }
  }

  /** So clean fields, each closed by the delimiter, are read as just said. */
  lemma CleanFieldsRead(fields: seq<string>)
    requires forall i :: 0 <= i < |fields| ==> Clean(fields[i])
    ensures ReadsAs(fields, Decode(Join(fields)))
  {
    hide Stoi, Split, FromFields, Clean, Join, ReadsAs;
    SplitJoin(fields);
    DecodeReads(Join(fields));
    assert (fields + [""])[..|fields|] == fields;
  }

  lemma {:induction false} ThrewStays(fields: seq<string>, m: nat, n: nat)
    requires m <= n && 4 * n <= |fields| && FromFields(fields, m).Threw?
    ensures FromFields(fields, n).Threw?
  {
    hide Stoi;
    if m < n {
      ThrewStays(fields, m, n - 1);
    }
  }

  /** `deserialize_payload_l`. */
  method Deserialize(s: string) returns (r: Parsed)
    ensures r == Decode(s)
  {
    hide Stoi, Split;
    var split := Split(s);
    if (|split| - 1) % 4 != 0 {
      return Parsed([]);
    }
    var l: seq<Payload> := [];
    var i := 0;
    ghost var n := (|split| - 1) / 4;
    while i < ((|split| - 1) / 4) * 4
      invariant 0 <= i <= 4 * n && i % 4 == 0
      invariant FromFields(split, i / 4) == Parsed(l)
    {
      var txnTimestamp := split[i];
      var txnMsgType := split[i + 1];
      var key := split[i + 2];
      var value := split[i + 3];
      var timer := Stoi(txnTimestamp);
      assert 4 * (i / 4) == i && (i + 4) / 4 == i / 4 + 1;
      if timer.None? {
        assert FromFields(split, i / 4 + 1).Threw?;
        ThrewStays(split, i / 4 + 1, n);
        return Threw;
      }
      l := l + [KvToPayload(key, value, timer.value, txnMsgType)];
      i := i + 4;
    }
    r := Parsed(l);
  }

  // ----- the round trip, exactly -----

  predicate TextsClean(p: Payload) {
    Clean(p.msgType) && Clean(p.key) && Clean(p.value)
  }

  /** A payload that survives the wire. */
  predicate Survives(p: Payload) {
    FitsInt(p.timestamp) && TextsClean(p)
  }

  /** All timestamps fit an int. */
  ghost predicate TimesFit(l: seq<Payload>) {
    forall p :: p in l ==> FitsInt(p.timestamp)
  }

  lemma TimesFitAdd(l: seq<Payload>, p: Payload)
    ensures TimesFit(l + [p]) <==> TimesFit(l) && FitsInt(p.timestamp)
  {
    hide FitsInt;
    assert p in l + [p] && forall q :: q in l ==> q in l + [p];
  }

  lemma {:induction false} NoDelim(s: string)
    requires forall i :: 0 <= i < |s| ==> s[i] != '@'
    ensures Clean(s)
  {
    if |s| >= 3 {
      assert s[..3][0] == s[0];
      NoDelim(s[1..]);
    }
  }

  lemma TimestampClean(n: int)
    ensures Clean(ToString(n))
  {
    DigitsValue(if n < 0 then -n else n);
    NoDelim(ToString(n));
  }

  lemma {:induction false} FieldsClean(l: seq<Payload>)
    requires forall p :: p in l ==> TextsClean(p)
    ensures forall i :: 0 <= i < |AllFields(l)| ==> Clean(AllFields(l)[i])
  {
    hide Clean, ToString, FitsInt;
    if l != [] {
      var last := l[|l| - 1];
      assert last in l;
      assert forall p :: p in l[..|l| - 1] ==> p in l;
      FieldsClean(l[..|l| - 1]);
      TimestampClean(last.timestamp);
    }
  }

  /** Reading one more payload: it is appended if its timestamp fits and all before it did. */
  lemma ReadOne(fields: seq<string>, n: nat, before: seq<Payload>, p: Payload)
    requires n >= 1 && 4 * n <= |fields| && fields[4 * (n - 1)..4 * n] == Fields(p)
    requires FromFields(fields, n - 1) == (if TimesFit(before) then Parsed(before) else Threw)
    ensures FromFields(fields, n) == if TimesFit(before) && FitsInt(p.timestamp) then Parsed(before + [p]) else Threw
  {
    hide Stoi, ToString, FitsInt, TimesFit;
    var i := 4 * (n - 1);
    var f := fields[i..4 * n];
    assert f[0] == fields[i] && f[1] == fields[i + 1] && f[2] == fields[i + 2] && f[3] == fields[i + 3];
    PrintParse(p.timestamp);
  }

  lemma {:induction false} FieldsLength(l: seq<Payload>)
    ensures |AllFields(l)| == 4 * |l|
  {
    if l != [] {
      FieldsLength(l[..|l| - 1]);
    }
  }

  lemma Middle(a: seq<string>, b: seq<string>, c: seq<string>)
    ensures a + b + c == a + (b + c) && (a + (b + c))[|a|..|a| + |b|] == b
  {
  }

  lemma FromNone(fields: seq<string>)
    ensures FromFields(fields, 0) == Parsed([])
  {
  }

  /** The fields of a list are read back as the list, unless one of the timestamps makes the parser
      throw. */
  lemma {:induction false} FieldsRead(l: seq<Payload>, rest: seq<string>)
    requires |AllFields(l)| == 4 * |l|
    ensures FromFields(AllFields(l) + rest, |l|) == if TimesFit(l) then Parsed(l) else Threw
  {
    hide Stoi, ToString, FitsInt, FromFields;
    if l == [] {
      FromNone(AllFields(l) + rest);
    } else {
      hide TimesFit;
      var before, last := l[..|l| - 1], l[|l| - 1];
      TimesFitAdd(before, last);
      FieldsLength(before);
      FieldsRead(before, Fields(last) + rest);
      Middle(AllFields(before), Fields(last), rest);
      ReadOne(AllFields(before) + (Fields(last) + rest), |l|, before, last);
      assert l == before + [last];
    }
  }

  lemma {:induction false} ReadSurvives(fields: seq<string>, n: nat)
    requires 4 * n <= |fields| && forall i :: 0 <= i < 4 * n ==> Clean(fields[i])
    requires FromFields(fields, n).Parsed?
    ensures forall p :: p in FromFields(fields, n).payloads ==> Survives(p)
  {
    hide Clean, Stoi, FitsInt;
    if n > 0 {
      ReadSurvives(fields, n - 1);
    }
  }

  /** What a list with clean texts is read as, in every case: itself if all its timestamps fit an
      int, and otherwise the parser throws. */
  lemma CleanRoundTrip(l: seq<Payload>)
    requires forall p :: p in l ==> TextsClean(p)
    ensures Decode(Encode(l)) == if TimesFit(l) then Parsed(l) else Threw
  {
    hide Split, Clean, TextsClean, TimesFit, Join, AllFields, FromFields;
    FieldsClean(l);
    SplitJoin(AllFields(l));
    FieldsLength(l);
    FieldsRead(l, [""]);
  }

  /** `get_current_time`: milliseconds since 1970, more than an int holds before its 26th day is out. */
  function ClockMillis(seconds: nat, micros: nat): int
    requires micros < 1_000_000
  {
    seconds * 1000 + micros / 1000
  }

  /** So the parser throws on every list that holds a payload stamped by it later than that. */
  lemma ClockStampsThrow(l: seq<Payload>, p: Payload, seconds: nat, micros: nat)
    requires (forall q :: q in l ==> TextsClean(q)) && p in l
    requires micros < 1_000_000 && p.timestamp == ClockMillis(seconds, micros)
    ensures seconds >= 2_147_484 ==> Decode(Encode(l)) == Threw
  {
    CleanRoundTrip(l);
  }

  /** Main theorem: a list is read back as it was written if and only if in each of its payloads the
      timestamp fits an int and the three texts hold no "@@@" and do not end in '@'. */
  lemma RoundTrip(l: seq<Payload>)
    ensures Decode(Encode(l)) == Parsed(l) <==> forall p :: p in l ==> Survives(p)
  {
    hide Split, Clean, Stoi, ToString, FitsInt, Join;
    if forall p :: p in l ==> Survives(p) {
      CleanRoundTrip(l);
    }
    if Decode(Encode(l)) == Parsed(l) {
      var split := Split(Encode(l));
      SplitClean(Encode(l));
      if (|split| - 1) % 4 == 0 {
        ReadSurvives(split, (|split| - 1) / 4);
      }
    }
  }

  /** A field that breaks it: a key ending in '@' gives that character to the next delimiter. */
  lemma TrailingAtIsLost()
    ensures Decode(Encode([Payload("a@", "v", 1, "m")])) != Parsed([Payload("a@", "v", 1, "m")])
  {
    var l := [Payload("a@", "v", 1, "m")];
    RoundTrip(l);
    assert l[0] in l && !Survives(l[0]);
  }
}
