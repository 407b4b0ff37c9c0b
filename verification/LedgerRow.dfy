/**
 crates/caddis-core/src/ledger_row.rs and the reader `row_seq` of ledger.rs: how one ledger row
 is escaped, bounded and read back.

 `Kept`, `Elided` and `RowText` specify the loops and the formatting of `Elide` and `RowFor`.
 */
module LedgerRow {
  import opened Wrappers
  import opened Text

  const ROW_CAP := 4096
  const FIELD_CAP := 256

  /** The envelope as the kernel carries it: one byte of version and seven opaque strings. */
  datatype Envelope = Envelope(
    v: nat, id: string, idemKey: string, typ: string, from: string, to: string, body: string, ts: string)

  /** What the Rust types guarantee of every envelope: `u8`, and strings whose length is a `usize`. */
  ghost predicate Typed(env: Envelope) {
    && env.v < 256
    && Bytes(env.id) < U64_LIMIT && Bytes(env.idemKey) < U64_LIMIT && Bytes(env.typ) < U64_LIMIT
    && Bytes(env.from) < U64_LIMIT && Bytes(env.to) < U64_LIMIT && Bytes(env.body) < U64_LIMIT
    && Bytes(env.ts) < U64_LIMIT
  }

  // ---------- elision ----------

  function EscWidth(c: char): nat {
    Bytes(EscapedChar(c))
  }

  /** How many leading characters of `s` the elision loop keeps within `room` escaped bytes. */
  function Kept(s: string, room: nat): (k: nat)
    ensures k <= |s|
  {
    if s == [] || EscWidth(s[0]) > room then 0 else 1 + Kept(s[1..], room - EscWidth(s[0]))
  }

  function Room(budget: nat): nat {
    if budget < 48 then 0 else budget - 48
  }

  function Marker(dropped: nat): string {
    "\U{2026}" + "[+" + Dec(dropped) + " bytes truncated]"
  }

  function Elided(s: string, budget: nat): string {
    if Bytes(Escaped(s)) <= budget then s else
      var kept := s[..Kept(s, Room(budget))];
      kept + Marker(Bytes(s[|kept|..]))
  }

  /** The kept prefix is the longest one whose escaped form fits. */
  lemma {:induction false} KeptIsLongest(s: string, room: nat, k: nat)
    requires k <= |s|
    ensures Bytes(Escaped(s[..k])) <= room <==> k <= Kept(s, room)
  {
    hide EscapedChar;
    if k > 0 {
      var c := s[0];
      assert s[..k] == [c] + s[1..][..k - 1];
      assert Escaped(s[..k]) == EscapedChar(c) + Escaped(s[1..][..k - 1]);
      BytesAppend(EscapedChar(c), Escaped(s[1..][..k - 1]));
      if EscWidth(c) <= room {
        KeptIsLongest(s[1..], room - EscWidth(c), k - 1);
      }
    }
  }

  lemma PlainFraming(dots: string, open: string, d: string, close: string)
    requires Plain(dots) && Plain(open) && Plain(d) && Plain(close)
    requires |dots| == 1 && Ascii(open) && Ascii(d) && Ascii(close)
    ensures var m := dots + open + d + close; Escaped(m) == m && Bytes(m) <= 4 + |open| + |d| + |close|
  {
    var tail := open + d + close;
    assert dots + open + d + close == dots + tail;
    BytesAppend(dots, tail);
    AsciiBytes(tail);
    PlainEscaped(dots + tail);
  }

  lemma MarkerFits(dropped: nat)
    requires dropped < U64_LIMIT
    ensures Escaped(Marker(dropped)) == Marker(dropped)
    ensures Bytes(Marker(dropped)) <= 48
  {
    U64Digits(dropped);
    PlainFraming("\U{2026}", "[+", Dec(dropped), " bytes truncated]");
  }

  /**
   `elide` returns its input when the escaped input fits; otherwise it keeps the longest prefix
   that leaves room for the marker, the marker counts exactly the bytes dropped, and from a
   budget of 48 bytes on the whole escapes to within the budget.
   */
  lemma {:induction false} ElisionLaw(s: string, budget: nat)
    requires Bytes(s) < U64_LIMIT
    ensures var k := Kept(s, Room(budget));
      if Bytes(Escaped(s)) <= budget then Elided(s, budget) == s else
        && Bytes(s) - Bytes(s[..k]) >= 0
        && Elided(s, budget) == s[..k] + Marker(Bytes(s) - Bytes(s[..k]))
        && forall j: nat :: j <= |s| ==> (Bytes(Escaped(s[..j])) <= Room(budget) <==> j <= k)
    ensures budget >= 48 ==> Bytes(Escaped(Elided(s, budget))) <= budget
  {
    hide EscapedChar;
    var k := Kept(s, Room(budget));
    forall j: nat | j <= |s| ensures Bytes(Escaped(s[..j])) <= Room(budget) <==> j <= k {
      KeptIsLongest(s, Room(budget), j);
    }
    SplitBytes(s, k);
    if Bytes(Escaped(s)) > budget {
      CutAt(s, budget);
      MarkerFits(Bytes(s) - Bytes(s[..k]));
      ElidedFits(s, budget, k, Marker(Bytes(s) - Bytes(s[..k])));
    }
  }

  lemma CutAt(s: string, budget: nat)
    requires Bytes(Escaped(s)) > budget
    ensures var k := Kept(s, Room(budget));
      Bytes(s) >= Bytes(s[..k]) && Elided(s, budget) == s[..k] + Marker(Bytes(s) - Bytes(s[..k]))
  {
    SplitBytes(s, Kept(s, Room(budget)));
  }

  lemma SplitBytes(s: string, k: nat)
    requires k <= |s|
    ensures Bytes(s) == Bytes(s[..k]) + Bytes(s[k..])
  {
    assert s == s[..k] + s[k..];
    BytesAppend(s[..k], s[k..]);
  }

  lemma ElidedFits(s: string, budget: nat, k: nat, m: string)
    requires k <= |s| && Bytes(Escaped(s[..k])) <= Room(budget)
    requires Escaped(m) == m && Bytes(m) <= 48
    ensures budget >= 48 ==> Bytes(Escaped(s[..k] + m)) <= budget
  {
    EscapedAppend(s[..k], m);
    BytesAppend(Escaped(s[..k]), Escaped(m));
  }

  // ---------- the row ----------

  function Field(s: string): string {
    Escaped(Elided(s, FIELD_CAP))
  }

  const ID_KEY := ",\"id\":\""
  const IDEM_KEY := "\",\"idem_key\":\""
  const TYPE_KEY := "\",\"type\":\""
  const FROM_KEY := "\",\"from\":\""
  const TO_KEY := "\",\"to\":\""
  const BODY_KEY := "\",\"body\":\""
  const TS_KEY := "\",\"ts\":\""
  const CLOSE := "\"}\n"

  function Opening(seqNo: nat, v: nat): string {
    "{\"seq\":" + Dec(seqNo) + ",\"v\":" + Dec(v) + ID_KEY
  }

  /** One field value and the literal that follows it. */
  function Put(s: string, value: string, lit: string): string {
    s + value + lit
  }

  /** The head of a row from its opening and five escaped values. */
  function HeadOf(o: string, id: string, idemKey: string, typ: string, from: string, to: string): string {
    Put(Put(Put(Put(Put(o, id, IDEM_KEY), idemKey, TYPE_KEY), typ, FROM_KEY), from, TO_KEY), to, BODY_KEY)
  }

  function RowOf(head: string, body: string, ts: string): string {
    Put(Put(head, body, TS_KEY), ts, CLOSE)
  }

  function Head(seqNo: nat, env: Envelope): string {
    HeadOf(Opening(seqNo, env.v), Field(env.id), Field(env.idemKey), Field(env.typ), Field(env.from), Field(env.to))
  }

  function BodyBudget(seqNo: nat, env: Envelope): nat {
    var used := Bytes(Head(seqNo, env)) + Bytes(Put(TS_KEY, Field(env.ts), CLOSE));
    if ROW_CAP < used then 0 else ROW_CAP - used
  }

  function RowText(seqNo: nat, env: Envelope): string {
    RowOf(Head(seqNo, env), Escaped(Elided(env.body, BodyBudget(seqNo, env))), Field(env.ts))
  }

  const SEQ_KEY := "\"seq\":"
  const BODY_MARK := "\"body\":"

  /** `row_seq`: the number of one intact row, or `None` for a torn one. */
  function RowSeq(line: string): Option<nat> {
    var t := Trim(line);
    if t == [] || t[0] != '{' || t[|t| - 1] != '}' then None
    else if CountMatches(t, SEQ_KEY) != 1 || CountMatches(t, BODY_MARK) != 1 then None
    else
      match Find(t, SEQ_KEY)
      case None => None
      case Some(k) => ParseU64(LeadingDigits(t[k + 6..]))
  }

  function LeadingDigits(s: string): (d: string)
    ensures AllDigits(d)
  {
    if s == [] || !IsDigit(s[0]) then [] else [s[0]] + LeadingDigits(s[1..])
  }

  /** `str::parse::<u64>` on a run of digits. */
  function ParseU64(d: string): Option<nat>
    requires AllDigits(d)
  {
    if d == [] || DecValue(d) >= U64_LIMIT then None else Some(DecValue(d))
  }

  lemma {:induction false} LeadingDigitsOf(d: string, rest: string)
    requires AllDigits(d)
    requires rest != [] && !IsDigit(rest[0])
    ensures LeadingDigits(d + rest) == d
  {
    if d == [] {
      assert d + rest == rest;
    } else {
      assert (d + rest)[1..] == d[1..] + rest;
      LeadingDigitsOf(d[1..], rest);
      assert d == [d[0]] + d[1..];
    }
  }

  // ---------- no field can forge a key ----------

  /**
   `s` closes a key at `j`: a quote behind the two characters `c`, `d` and before a colon.
   `"seq":` and `"body":` both end this way, and neither an escaped field nor a seam can.
   */
  ghost predicate KeyEnd(s: string, j: int, c: char, d: char) {
    2 <= j && j + 1 < |s| && s[j] == '"' && s[j - 1] == d && s[j - 2] == c && s[j + 1] == ':'
  }

  /** `s` closes that key nowhere but (possibly) at `p`. */
  ghost predicate OnlyAt(s: string, c: char, d: char, p: int) {
    forall j :: KeyEnd(s, j, c, d) ==> j == p
  }

  /** A prefix of the row that stops inside a value, right after its opening quote. */
  ghost predicate OpenValue(s: string) {
    Printable(s) && |s| >= 2 && s[|s| - 1] == '"' && s[|s| - 2] == ':'
  }

  /** A literal that closes one value, names the next field and opens its value. */
  ghost predicate Joint(lit: string) {
    |lit| >= 4 && lit[0] == '"' && lit[1] == ',' && OpenValue(lit)
  }

  /** Appending an escaped field and the next literal adds only the keys of the literal. */
  lemma PutKeys(a: string, e: string, lit: string, c: char, d: char, p: int)
    requires OpenValue(a) && OnlyAt(a, c, d, p)
    requires Framed(e) && d != '\\' && d != ':'
    requires |lit| >= 2 && lit[0] == '"' && lit[1] != '"' && lit[1] != ':'
    requires forall k :: KeyEnd(lit, k, c, d) ==> |a| + |e| + k == p
    ensures OnlyAt(Put(a, e, lit), c, d, p)
  {
    var t := Put(a, e, lit);
    forall j ensures KeyEnd(t, j, c, d) ==> j == p {
      if 2 <= j && j + 1 < |t| {
        if j < |a| - 1 {
          assert KeyEnd(t, j, c, d) <==> KeyEnd(a, j, c, d);
        } else if j == |a| - 1 {
          assert t[j - 1] == a[j - 1] == ':';
          assert !KeyEnd(t, j, c, d);
        } else if j < |a| + |e| {
          var i := j - |a|;
          assert t[j] == e[i] && (i > 0 ==> t[j - 1] == e[i - 1]);
          assert QuoteGuarded(e, i);
          assert !KeyEnd(t, j, c, d);
        } else if j == |a| + |e| {
          assert t[j + 1] == lit[1];
          assert !KeyEnd(t, j, c, d);
        } else {
          var k := j - |a| - |e|;
          assert t[j] == lit[k] && t[j - 1] == lit[k - 1] && t[j + 1] == lit[k + 1];
          assert k >= 2 ==> t[j - 2] == lit[k - 2];
          assert KeyEnd(t, j, c, d) ==> KeyEnd(lit, k, c, d);
        }
      }
    }
  }

  lemma PutField(a: string, e: string, lit: string, p: int)
    requires OpenValue(a) && OnlyAt(a, 'e', 'q', 5) && OnlyAt(a, 'd', 'y', p)
    requires Framed(e) && Joint(lit)
    requires forall k :: !KeyEnd(lit, k, 'e', 'q')
    requires forall k :: KeyEnd(lit, k, 'd', 'y') ==> |a| + |e| + k == p
    ensures var t := Put(a, e, lit); OpenValue(t) && OnlyAt(t, 'e', 'q', 5) && OnlyAt(t, 'd', 'y', p)
    ensures a <= Put(a, e, lit)
  {
    PutKeys(a, e, lit, 'e', 'q', 5);
    PutKeys(a, e, lit, 'd', 'y', p);
  }

  /** A literal between two fields that ends neither of the two keys looked for. */
  ghost predicate Neutral(lit: string) {
    Joint(lit) && (forall k :: !KeyEnd(lit, k, 'e', 'q')) && forall k :: !KeyEnd(lit, k, 'd', 'y')
  }

  lemma IdemJoint()
    ensures Neutral(IDEM_KEY)
  {
  }

  lemma EarlyJoints()
    ensures Neutral(TYPE_KEY) && Neutral(FROM_KEY)
  {
  }

  lemma LateJoints()
    ensures Neutral(TO_KEY) && Neutral(TS_KEY)
    ensures Joint(BODY_KEY) && forall k :: !KeyEnd(BODY_KEY, k, 'e', 'q')
    ensures forall k :: KeyEnd(BODY_KEY, k, 'd', 'y') ==> k == 7
  {
  }

  lemma Joints()
    ensures Neutral(IDEM_KEY) && Neutral(TYPE_KEY) && Neutral(FROM_KEY) && Neutral(TO_KEY) && Neutral(TS_KEY)
    ensures Joint(BODY_KEY) && forall k :: !KeyEnd(BODY_KEY, k, 'e', 'q')
    ensures forall k :: KeyEnd(BODY_KEY, k, 'd', 'y') ==> k == 7
  {
    hide Joint, KeyEnd, Neutral;
    IdemJoint();
    EarlyJoints();
    LateJoints();
  }

  lemma OpeningKeys(seqNo: nat, v: nat)
    ensures OpenValue(Opening(seqNo, v))
    ensures OnlyAt(Opening(seqNo, v), 'e', 'q', 5)
    ensures forall j :: !KeyEnd(Opening(seqNo, v), j, 'd', 'y')
  {
    var o := Opening(seqNo, v);
    var a, b := Dec(seqNo), Dec(v);
    var m := 7 + |a|;
    var n := m + 5 + |b|;
    assert o == "{\"seq\":" + a + ",\"v\":" + b + ID_KEY;
    forall j ensures KeyEnd(o, j, 'e', 'q') ==> j == 5
      ensures !KeyEnd(o, j, 'd', 'y')
    {
      if 2 <= j && j + 1 < |o| {
        if 7 <= j < m {
          assert o[j] == a[j - 7];
        } else if m <= j < m + 5 {
          assert o[j] == ",\"v\":"[j - m];
        } else if m + 5 <= j < n {
          assert o[j] == b[j - m - 5];
        } else if n <= j {
          assert o[j] == ID_KEY[j - n];
        }
      }
    }
  }

  /** The head holds one `"seq":`, at its start, and one `"body":`, at its end. */
  lemma HeadKeys(o: string, id: string, idemKey: string, typ: string, from: string, to: string)
    requires OpenValue(o) && OnlyAt(o, 'e', 'q', 5) && forall j :: !KeyEnd(o, j, 'd', 'y')
    requires Framed(id) && Framed(idemKey) && Framed(typ) && Framed(from) && Framed(to)
    ensures var h := HeadOf(o, id, idemKey, typ, from, to);
      OpenValue(h) && o <= h && OnlyAt(h, 'e', 'q', 5) && OnlyAt(h, 'd', 'y', |h| - 3)
      && |h| >= 10 && h[|h| - 10..] == BODY_KEY
  {
    var p := |HeadOf(o, id, idemKey, typ, from, to)| - 3;
    Joints();
    assert OnlyAt(o, 'd', 'y', p);
    PutField(o, id, IDEM_KEY, p);
    var a1 := Put(o, id, IDEM_KEY);
    PutField(a1, idemKey, TYPE_KEY, p);
    var a2 := Put(a1, idemKey, TYPE_KEY);
    PutField(a2, typ, FROM_KEY, p);
    var a3 := Put(a2, typ, FROM_KEY);
    PutField(a3, from, TO_KEY, p);
    PutField(Put(a3, from, TO_KEY), to, BODY_KEY, p);
  }

  /** What every row looks like, given a head of that shape and two escaped values. */
  lemma RowShape(h: string, body: string, ts: string)
    requires OpenValue(h) && OnlyAt(h, 'e', 'q', 5) && OnlyAt(h, 'd', 'y', |h| - 3)
    requires Framed(body) && Framed(ts)
    ensures var row := RowOf(h, body, ts);
      && OnlyAt(row, 'e', 'q', 5) && OnlyAt(row, 'd', 'y', |h| - 3)
      && |row| >= |h| + 11 && h <= row && row[|row| - 1] == '\n' && row[|row| - 2] == '}'
      && Printable(row[..|row| - 1])
  {
    Joints();
    PutField(h, body, TS_KEY, |h| - 3);
    var a := Put(h, body, TS_KEY);
    PutKeys(a, ts, CLOSE, 'e', 'q', 5);
    PutKeys(a, ts, CLOSE, 'd', 'y', |h| - 3);
    assert Put(a, ts, CLOSE)[..|a| + |ts| + 2] == a + ts + "\"}";
  }

  // ---------- the row laws ----------

  lemma SeqKeyAt(line: string, row: string)
    requires line <= row && OnlyAt(row, 'e', 'q', 5) && At(line, 1, SEQ_KEY)
    ensures CountMatches(line, SEQ_KEY) == 1 && Find(line, SEQ_KEY) == Some(1)
  {
    forall i ensures At(line, i, SEQ_KEY) ==> i == 1 {
      if 0 <= i && i + 6 <= |line| {
        var w := line[i..i + 6];
        assert w[2] == row[i + 2] && w[3] == row[i + 3] && w[4] == row[i + 4] && w[5] == row[i + 5];
        assert w == SEQ_KEY ==> KeyEnd(row, i + 4, 'e', 'q');
      }
    }
    OneMatch(line, SEQ_KEY, 1);
  }

  lemma BodyKeyAt(line: string, row: string, p: nat)
    requires line <= row && OnlyAt(row, 'd', 'y', p + 5) && At(line, p, BODY_MARK)
    ensures CountMatches(line, BODY_MARK) == 1
  {
    forall i ensures At(line, i, BODY_MARK) ==> i == p {
      if 0 <= i && i + 7 <= |line| {
        var w := line[i..i + 7];
        assert w[3] == row[i + 3] && w[4] == row[i + 4] && w[5] == row[i + 5] && w[6] == row[i + 6];
        assert w == BODY_MARK ==> KeyEnd(row, i + 5, 'd', 'y');
      }
    }
    OneMatch(line, BODY_MARK, p);
  }

  lemma Untrimmed(line: string)
    requires line != [] && !IsSpace(line[0]) && !IsSpace(line[|line| - 1])
    ensures Trim(line) == line && Trim(line + "\n") == line
  {
    assert TrimStart(line + "\n") == line + "\n";
    assert (line + "\n")[..|line|] == line;
  }

  lemma OpeningDigits(seqNo: nat, v: nat, line: string)
    requires Opening(seqNo, v) <= line
    ensures line[0] == '{' && At(line, 1, SEQ_KEY) && LeadingDigits(line[7..]) == Dec(seqNo)
  {
    hide Dec, LeadingDigits;
    var o, d := Opening(seqNo, v), Dec(seqNo);
    assert o[..8 + |d|] == "{" + SEQ_KEY + d + ",";
    assert line[..8 + |d|] == o[..8 + |d|];
    assert line[7..] == d + line[7 + |d|..];
    LeadingDigitsOf(d, line[7 + |d|..]);
  }

  /** A row of this shape is read back with the number in its opening. */
  lemma ShapedRowSeq(seqNo: nat, v: nat, h: string, row: string)
    requires seqNo < U64_LIMIT
    requires Opening(seqNo, v) <= h <= row && |h| >= 10 && h[|h| - 10..] == BODY_KEY
    requires OnlyAt(row, 'e', 'q', 5) && OnlyAt(row, 'd', 'y', |h| - 3)
    requires |row| > |h| && row[|row| - 1] == '\n' && row[|row| - 2] == '}'
    ensures RowSeq(row[..|row| - 1]) == Some(seqNo) && RowSeq(row) == Some(seqNo)
  {
    hide Dec, LeadingDigits, CountMatches, Find, OnlyAt, Opening, Trim, TrimStart, TrimEnd;
    var line := row[..|row| - 1];
    assert h <= line && line[|line| - 1] == '}';
    OpeningDigits(seqNo, v, line);
    Untrimmed(line);
    assert row == line + "\n";
    SeqKeyAt(line, row);
    BodyKeyEnds(line, h);
    BodyKeyAt(line, row, |h| - 8);
  }

  lemma BodyKeyEnds(line: string, h: string)
    requires h <= line && |h| >= 10 && h[|h| - 10..] == BODY_KEY
    ensures At(line, |h| - 8, BODY_MARK)
  {
    assert line[|h| - 8..|h| - 1] == BODY_KEY[2..9] == BODY_MARK;
  }

  lemma FramedRowReadsBack(seqNo: nat, v: nat, id: string, idemKey: string, typ: string, from: string, to: string,
      body: string, ts: string)
    requires seqNo < U64_LIMIT
    requires Framed(id) && Framed(idemKey) && Framed(typ) && Framed(from) && Framed(to) && Framed(body) && Framed(ts)
    ensures var row := RowOf(HeadOf(Opening(seqNo, v), id, idemKey, typ, from, to), body, ts);
      && IsOneRow(row)
      && RowSeq(row[..|row| - 1]) == Some(seqNo)
      && RowSeq(row) == Some(seqNo)
  {
    hide Opening, OnlyAt, Framed, RowSeq, KeyEnd, OpenValue;
    OpeningKeys(seqNo, v);
    HeadKeys(Opening(seqNo, v), id, idemKey, typ, from, to);
    var h := HeadOf(Opening(seqNo, v), id, idemKey, typ, from, to);
    RowShape(h, body, ts);
    var row := RowOf(h, body, ts);
    ShapedRowSeq(seqNo, v, h, row);
    PrintableLine(row);
  }

  /** Exactly one newline, as the last character, so that `lines` sees exactly one line. */
  ghost predicate IsOneRow(row: string) {
    && row != []
    && (forall i :: 0 <= i < |row| ==> (row[i] == '\n' <==> i == |row| - 1))
    && Lines(row) == [row[..|row| - 1]]
  }

  /**
   For every envelope, however hostile: exactly one newline, as the last character, and the row
   reads back as one intact line carrying its own number.
   */
  lemma {:induction false} RowReadsBack(seqNo: nat, env: Envelope)
    requires seqNo < U64_LIMIT
    ensures var row := RowText(seqNo, env);
      && IsOneRow(row)
      && RowSeq(row[..|row| - 1]) == Some(seqNo)
      && RowSeq(row) == Some(seqNo)
  {
    FieldsFramed(seqNo, env);
    FramedRowReadsBack(seqNo, env.v, Field(env.id), Field(env.idemKey), Field(env.typ), Field(env.from), Field(env.to),
                       Escaped(Elided(env.body, BodyBudget(seqNo, env))), Field(env.ts));
  }

  lemma PrintableLine(row: string)
    requires row != [] && row[|row| - 1] == '\n' && Printable(row[..|row| - 1])
    ensures IsOneRow(row)
  {
    var line := row[..|row| - 1];
    assert forall i :: 0 <= i < |line| ==> row[i] == line[i];
    OneLine(line);
    assert row == line + "\n";
  }

  lemma FieldsFramed(seqNo: nat, env: Envelope)
    ensures Framed(Field(env.id)) && Framed(Field(env.idemKey)) && Framed(Field(env.typ)) && Framed(Field(env.from))
    ensures Framed(Field(env.to)) && Framed(Field(env.ts))
    ensures Framed(Escaped(Elided(env.body, BodyBudget(seqNo, env))))
  {
    EscapedFramed(Elided(env.id, FIELD_CAP));
    EscapedFramed(Elided(env.idemKey, FIELD_CAP));
    EscapedFramed(Elided(env.typ, FIELD_CAP));
    EscapedFramed(Elided(env.from, FIELD_CAP));
    EscapedFramed(Elided(env.to, FIELD_CAP));
    EscapedFramed(Elided(env.ts, FIELD_CAP));
    EscapedFramed(Elided(env.body, BodyBudget(seqNo, env)));
  }

  // ---------- the 4096-byte bound ----------

  lemma PutBytes(s: string, e: string, lit: string)
    requires Ascii(lit)
    ensures Bytes(Put(s, e, lit)) == Bytes(s) + Bytes(e) + |lit|
  {
    BytesAppend(s, e);
    BytesAppend(s + e, lit);
    AsciiBytes(lit);
  }

  lemma TailBytes(lit: string, ts: string, close: string)
    requires Ascii(lit) && Ascii(close)
    ensures Bytes(Put(lit, ts, close)) == |lit| + Bytes(ts) + |close|
  {
    PutBytes(lit, ts, close);
    AsciiBytes(lit);
  }

  lemma FieldFits(s: string)
    requires Bytes(s) < U64_LIMIT
    ensures Bytes(Field(s)) <= FIELD_CAP
  {
    ElisionLaw(s, FIELD_CAP);
  }

  lemma OpeningBytes(seqNo: nat, v: nat)
    requires seqNo < U64_LIMIT && v < 256
    ensures Bytes(Opening(seqNo, v)) <= 42
  {
    U64Digits(seqNo);
    DecLength(v, 3);
    var a, b := Dec(seqNo), Dec(v);
    var o := "{\"seq\":" + a + ",\"v\":" + b + ID_KEY;
    assert Ascii(a) && Ascii(b);
    AsciiBytes(o);
  }

  lemma KeysAscii()
    ensures Ascii(IDEM_KEY) && Ascii(TYPE_KEY) && Ascii(FROM_KEY) && Ascii(TO_KEY) && Ascii(BODY_KEY)
    ensures Ascii(TS_KEY) && Ascii(CLOSE)
  {
  }

  lemma HeadBytes(o: string, id: string, idemKey: string, typ: string, from: string, to: string)
    ensures Bytes(HeadOf(o, id, idemKey, typ, from, to))
         == Bytes(o) + Bytes(id) + Bytes(idemKey) + Bytes(typ) + Bytes(from) + Bytes(to) + 52
  {
    KeysAscii();
    hide Bytes, Put, Ascii;
    PutBytes(o, id, IDEM_KEY);
    var a1 := Put(o, id, IDEM_KEY);
    PutBytes(a1, idemKey, TYPE_KEY);
    var a2 := Put(a1, idemKey, TYPE_KEY);
    PutBytes(a2, typ, FROM_KEY);
    var a3 := Put(a2, typ, FROM_KEY);
    PutBytes(a3, from, TO_KEY);
    PutBytes(Put(a3, from, TO_KEY), to, BODY_KEY);
  }

  lemma BudgetedRowFits(head: string, body: string, ts: string)
    requires Bytes(body) + Bytes(head) + Bytes(Put(TS_KEY, ts, CLOSE)) <= ROW_CAP
    ensures Bytes(RowOf(head, body, ts)) <= ROW_CAP
  {
    TailBytes(TS_KEY, ts, CLOSE);
    PutBytes(head, body, TS_KEY);
    PutBytes(Put(head, body, TS_KEY), ts, CLOSE);
  }

  lemma BudgetRoom(o: string, id: string, idemKey: string, typ: string, from: string, to: string, ts: string)
    requires Bytes(o) <= 42 && Bytes(id) <= 256 && Bytes(idemKey) <= 256 && Bytes(typ) <= 256
    requires Bytes(from) <= 256 && Bytes(to) <= 256 && Bytes(ts) <= 256
    ensures Bytes(HeadOf(o, id, idemKey, typ, from, to)) + Bytes(Put(TS_KEY, ts, CLOSE)) + 48 <= ROW_CAP
  {
    KeysAscii();
    hide Bytes, Put, Ascii, HeadOf;
    HeadBytes(o, id, idemKey, typ, from, to);
    TailBytes(TS_KEY, ts, CLOSE);
  }

  /** The atomicity claim's premise: every row fits in one 4096-byte write. */
  lemma {:induction false} RowFits(seqNo: nat, env: Envelope)
    requires seqNo < U64_LIMIT && Typed(env)
    ensures Bytes(RowText(seqNo, env)) <= ROW_CAP
  {
    OpeningBytes(seqNo, env.v);
    FieldFits(env.id);
    FieldFits(env.idemKey);
    FieldFits(env.typ);
    FieldFits(env.from);
    FieldFits(env.to);
    FieldFits(env.ts);
    BudgetRoom(Opening(seqNo, env.v), Field(env.id), Field(env.idemKey), Field(env.typ), Field(env.from), Field(env.to),
               Field(env.ts));
    ElisionLaw(env.body, BodyBudget(seqNo, env));
    BudgetedRowFits(Head(seqNo, env), Escaped(Elided(env.body, BodyBudget(seqNo, env))), Field(env.ts));
  }

  // ---------- the loops ----------

  /** `esc`. */
  method Esc(s: string) returns (out: string)
    ensures out == Escaped(s)
  {
    out := "";
    for i := 0 to |s|
      invariant out == Escaped(s[..i])
    {
      EscapedSnoc(s[..i], s[i]);
      assert s[..i + 1] == s[..i] + [s[i]];
      out := out + EscapedChar(s[i]);
    }
    assert s[..|s|] == s;
  }

  lemma KeptStep(s: string, i: nat, room: nat)
    requires i < |s|
    ensures EscWidth(s[i]) > room ==> Kept(s[i..], room) == 0
    ensures EscWidth(s[i]) <= room ==> Kept(s[i..], room) == 1 + Kept(s[i + 1..], room - EscWidth(s[i]))
  {
    assert s[i..][1..] == s[i + 1..];
  }

  /** `elide`. */
  method Elide(body: string, budget: nat) returns (r: string)
    ensures r == Elided(body, budget)
  {
    var whole := Esc(body);
    if Bytes(whole) <= budget {
      return body;
    }
    var kept := KeepPrefix(body, if budget < 48 then 0 else budget - 48);
    CutAt(body, budget);
    r := kept + Marker(Bytes(body) - Bytes(kept));
  }

  method KeepPrefix(body: string, keepTo: nat) returns (kept: string)
    ensures kept == body[..Kept(body, keepTo)]
  {
    hide EscapedChar;
    var used := 0;
    kept := "";
    for i := 0 to |body|
      invariant kept == body[..i] && used <= keepTo
      invariant i + Kept(body[i..], keepTo - used) == Kept(body, keepTo)
    {
      var w := EscWidth(body[i]);
      KeptStep(body, i, keepTo - used);
      if used + w > keepTo {
        return;
      }
      kept, used := kept + [body[i]], used + w;
    }
  }

  /** `row_for`. */
  method RowFor(seqNo: nat, env: Envelope) returns (row: string)
    ensures row == RowText(seqNo, env)
  {
    var id := ElideEsc(env.id);
    var idemKey := ElideEsc(env.idemKey);
    var typ := ElideEsc(env.typ);
    var from := ElideEsc(env.from);
    var to := ElideEsc(env.to);
    var ts := ElideEsc(env.ts);
    var head := HeadOf(Opening(seqNo, env.v), id, idemKey, typ, from, to);
    var tail := Put(TS_KEY, ts, CLOSE);
    var used := Bytes(head) + Bytes(tail);
    var budget := if ROW_CAP < used then 0 else ROW_CAP - used;
    var cut := Elide(env.body, budget);
    var body := Esc(cut);
    row := RowOf(head, body, ts);
  }

  method ElideEsc(s: string) returns (e: string)
    ensures e == Field(s)
  {
    var cut := Elide(s, FIELD_CAP);
    e := Esc(cut);
  }
}
