/**
 A ledger row as JSON: crates/caddis-core/src/ledger_row.rs writes it by hand; here it is read by the JSON
 parser and its members compared with the envelope.
 */
module LedgerJson {
  import opened Wrappers
  import opened Text
  import opened Decimals
  import opened Json
  import opened JsonRoundTrip
  import opened Flat
  import opened LedgerRow

  /** The frame of a row up to the value of the field `name`. */
  function Frame(fields: seq<(string, string)>, name: string): string {
    "{" + Pairs(fields) + "," + Word(name) + ":\""
  }

  /** What stands between two string fields. */
  function Between(name: string): string {
    "\"," + Word(name) + ":\""
  }

  lemma {:induction false} PairsSnoc(fields: seq<(string, string)>, f: (string, string))
    requires fields != []
    ensures Pairs(fields + [f]) == Pairs(fields) + "," + Pair(f)
    decreases |fields|
  {
    hide Pair;
    assert (fields + [f])[1..] == fields[1..] + [f];
    if |fields| == 1 {
      assert fields[1..] + [f] == [f];
    } else {
      PairsSnoc(fields[1..], f);
      var a, b := Pair(fields[0]), Pairs(fields[1..]);
      assert a + "," + (b + "," + Pair(f)) == (a + "," + b) + "," + Pair(f);
    }
  }

  function Texts(e: string): string {
    "\"" + e + "\""
  }

  /** One value and the key after it move the frame on by one field. */
  lemma FrameStep(fields: seq<(string, string)>, name: string, e: string, next: string, lit: string)
    requires fields != [] && lit == Between(next)
    ensures LedgerRow.Put(Frame(fields, name), e, lit) == Frame(fields + [(name, Texts(e))], next)
  {
    PairsSnoc(fields, (name, Texts(e)));
    hide Pairs;
    var p, w, x := Pairs(fields), Word(name), Word(next);
    hide Word;
    assert Pair((name, Texts(e))) == w + ":" + ("\"" + e + "\"");
    assert "{" + p + "," + w + ":\"" + e + ("\"," + x + ":\"")
      == "{" + (p + "," + (w + ":" + ("\"" + e + "\""))) + "," + x + ":\"";
  }

  /** The last value closes the object. */
  lemma FrameClose(fields: seq<(string, string)>, name: string, e: string)
    requires fields != []
    ensures LedgerRow.Put(Frame(fields, name), e, "\"}\n") == Object(fields + [(name, Texts(e))]) + "\n"
  {
    PairsSnoc(fields, (name, Texts(e)));
    hide Pairs;
    var p, w := Pairs(fields), Word(name);
    hide Word;
    assert Pair((name, Texts(e))) == w + ":" + ("\"" + e + "\"");
    assert "{" + p + "," + w + ":\"" + e + "\"}\n" == "{" + (p + "," + (w + ":" + ("\"" + e + "\""))) + "}" + "\n";
  }

  lemma FrameOpens(seqNo: nat, v: nat)
    ensures Opening(seqNo, v) == Frame([("seq", Dec(seqNo)), ("v", Dec(v))], "id")
  {
    hide Dec;
    var a, b := Dec(seqNo), Dec(v);
    var fields := [("seq", a), ("v", b)];
    assert fields[1..] == [("v", b)];
    assert Pairs(fields) == Pair(("seq", a)) + "," + Pair(("v", b));
    assert Word("seq") == "\"seq\"" && Word("v") == "\"v\"" && Word("id") == "\"id\"";
    assert "{\"seq\":" + a + ",\"v\":" + b + ",\"id\":\""
      == "{" + ("\"seq\"" + ":" + a + "," + ("\"v\"" + ":" + b)) + "," + "\"id\"" + ":\"";
  }

  lemma Keys()
    ensures IDEM_KEY == Between("idem_key") && TYPE_KEY == Between("type") && FROM_KEY == Between("from")
    ensures TO_KEY == Between("to") && BODY_KEY == Between("body") && TS_KEY == Between("ts") && CLOSE == "\"}\n"
  {
  }

  /** Nine fields by name, the strings already escaped. */
  function NineFields(seqNo: nat, v: nat, id: string, idemKey: string, typ: string, from: string, to: string,
      body: string, ts: string): seq<(string, string)>
  {
    [("seq", Dec(seqNo)), ("v", Dec(v)), ("id", Texts(id)), ("idem_key", Texts(idemKey)), ("type", Texts(typ)),
     ("from", Texts(from)), ("to", Texts(to)), ("body", Texts(body)), ("ts", Texts(ts))]
  }

  lemma HeadFrame(seqNo: nat, v: nat, id: string, idemKey: string, typ: string, from: string, to: string)
    ensures HeadOf(Opening(seqNo, v), id, idemKey, typ, from, to)
      == Frame([("seq", Dec(seqNo)), ("v", Dec(v)), ("id", Texts(id)), ("idem_key", Texts(idemKey)),
                ("type", Texts(typ)), ("from", Texts(from)), ("to", Texts(to))], "body")
  {
    Keys();
    FrameOpens(seqNo, v);
    hide Opening, LedgerRow.Put, Frame, Texts, Between, Dec;
    var f2 := [("seq", Dec(seqNo)), ("v", Dec(v))];
    FrameStep(f2, "id", id, "idem_key", IDEM_KEY);
    var f3 := f2 + [("id", Texts(id))];
    FrameStep(f3, "idem_key", idemKey, "type", TYPE_KEY);
    var f4 := f3 + [("idem_key", Texts(idemKey))];
    FrameStep(f4, "type", typ, "from", FROM_KEY);
    var f5 := f4 + [("type", Texts(typ))];
    FrameStep(f5, "from", from, "to", TO_KEY);
    var f6 := f5 + [("from", Texts(from))];
    FrameStep(f6, "to", to, "body", BODY_KEY);
    assert f6 + [("to", Texts(to))]
      == [("seq", Dec(seqNo)), ("v", Dec(v)), ("id", Texts(id)), ("idem_key", Texts(idemKey)),
          ("type", Texts(typ)), ("from", Texts(from)), ("to", Texts(to))];
  }

  lemma RowIsObject(seqNo: nat, v: nat, id: string, idemKey: string, typ: string, from: string, to: string,
      body: string, ts: string)
    ensures LedgerRow.RowOf(HeadOf(Opening(seqNo, v), id, idemKey, typ, from, to), body, ts)
      == Object(NineFields(seqNo, v, id, idemKey, typ, from, to, body, ts)) + "\n"
  {
    Keys();
    HeadFrame(seqNo, v, id, idemKey, typ, from, to);
    hide Opening, HeadOf, LedgerRow.Put, Frame, Texts, Between, Dec, Object;
    var f7 := [("seq", Dec(seqNo)), ("v", Dec(v)), ("id", Texts(id)), ("idem_key", Texts(idemKey)),
               ("type", Texts(typ)), ("from", Texts(from)), ("to", Texts(to))];
    FrameStep(f7, "body", body, "ts", TS_KEY);
    var f8 := f7 + [("body", Texts(body))];
    FrameClose(f8, "ts", ts);
    assert f8 + [("ts", Texts(ts))] == NineFields(seqNo, v, id, idemKey, typ, from, to, body, ts);
  }

  // ---------- read as JSON ----------

  /** The nine members by name. */
  function NineMembers(seqNo: nat, v: nat, id: string, idemKey: string, typ: string, from: string, to: string,
      body: string, ts: string): seq<Member>
  {
    [Member("seq", Num(Int(seqNo))), Member("v", Num(Int(v))), Member("id", Str(id)), Member("idem_key", Str(idemKey)),
     Member("type", Str(typ)), Member("from", Str(from)), Member("to", Str(to)), Member("body", Str(body)),
     Member("ts", Str(ts))]
  }

  lemma NamesPlain()
    ensures Plain("seq") && Plain("v") && Plain("id") && Plain("idem_key") && Plain("type")
    ensures Plain("from") && Plain("to") && Plain("body") && Plain("ts")
  {
  }

  lemma NineWritten(seqNo: nat, v: nat, id: string, idemKey: string, typ: string, from: string, to: string,
      body: string, ts: string)
    ensures WritesAll(
      NineFields(seqNo, v, Escaped(id), Escaped(idemKey), Escaped(typ), Escaped(from),
        Escaped(to), Escaped(body), Escaped(ts)),
      NineMembers(seqNo, v, id, idemKey, typ, from, to, body, ts))
  {
    NamesPlain();
    hide Plain, Dec, Writes, Escaped;
    NatField("seq", seqNo);
    NatField("v", v);
    StrField("id", id);
    StrField("idem_key", idemKey);
    StrField("type", typ);
    StrField("from", from);
    StrField("to", to);
    StrField("body", body);
    StrField("ts", ts);
  }

  /** The members a row's text parses to. */
  lemma RowParsesTo(seqNo: nat, v: nat, id: string, idemKey: string, typ: string, from: string, to: string,
      body: string, ts: string, line: string)
    requires line == Object(NineFields(seqNo, v, Escaped(id), Escaped(idemKey), Escaped(typ), Escaped(from),
      Escaped(to), Escaped(body), Escaped(ts)))
    requires Bytes(line) <= MAX_BYTES
    ensures Parse(line) == Ok(Obj(NineMembers(seqNo, v, id, idemKey, typ, from, to, body, ts)))
  {
    NineWritten(seqNo, v, id, idemKey, typ, from, to, body, ts);
    NineNest(seqNo, v, id, idemKey, typ, from, to, body, ts);
    hide NineFields, NineMembers, Parse, Object, WriteValue, Nest, Bytes, Escaped, Writes, WritesAll;
    var fields := NineFields(seqNo, v, Escaped(id), Escaped(idemKey), Escaped(typ), Escaped(from), Escaped(to),
      Escaped(body), Escaped(ts));
    ObjectIsWritten(fields, NineMembers(seqNo, v, id, idemKey, typ, from, to, body, ts));
    RoundTrip(Obj(NineMembers(seqNo, v, id, idemKey, typ, from, to, body, ts)));
  }

  lemma NineNest(seqNo: nat, v: nat, id: string, idemKey: string, typ: string, from: string, to: string,
      body: string, ts: string)
    ensures Nest(Obj(NineMembers(seqNo, v, id, idemKey, typ, from, to, body, ts))) <= 1
  {
    NestAtMost(NineMembers(seqNo, v, id, idemKey, typ, from, to, body, ts), 0);
  }

  // ---------- what a row says ----------

  /** The field as elision leaves it within `budget` escaped bytes: itself, or a prefix and a marker. */
  ghost predicate Carries(said: string, meant: string, budget: nat) {
    && (Bytes(Escaped(meant)) <= budget ==> said == meant)
    && (Bytes(Escaped(meant)) > budget ==> exists k: nat ::
          k <= |meant| && said == meant[..k] + "\U{2026}[+" + Dec(Bytes(meant[k..])) + " bytes truncated]")
  }

  lemma ElidedCarries(s: string, budget: nat)
    ensures Carries(Elided(s, budget), s, budget)
  {
    hide Dec, Bytes, Escaped, Kept;
    if Bytes(Escaped(s)) > budget {
      var k := Kept(s, Room(budget));
      var kept := s[..k];
      assert |kept| == k;
      assert kept + Marker(Bytes(s[k..])) == kept + "\U{2026}[+" + Dec(Bytes(s[k..])) + " bytes truncated]";
    }
  }

  /** What the body may take: the row cap less the bytes of the row with an empty body. */
  ghost function BodyRoom(seqNo: nat, v: nat, id: string, idemKey: string, typ: string, from: string,
      to: string, ts: string): nat
  {
    var empty := WriteValue(Obj(NineMembers(seqNo, v, id, idemKey, typ, from, to, "", ts))) + "\n";
    if Bytes(empty) > 4096 then 0 else 4096 - Bytes(empty)
  }

  /** The row of the envelope: a number, a version, and seven texts under their names. */
  ghost predicate Says(ms: seq<Member>, seqNo: nat, env: Envelope) {
    exists id, idemKey, typ, from, to, body, ts ::
      && ms == NineMembers(seqNo, env.v, id, idemKey, typ, from, to, body, ts)
      && Carries(id, env.id, 256) && Carries(idemKey, env.idemKey, 256) && Carries(typ, env.typ, 256)
      && Carries(from, env.from, 256) && Carries(to, env.to, 256) && Carries(ts, env.ts, 256)
      && Carries(body, env.body, BodyRoom(seqNo, env.v, id, idemKey, typ, from, to, ts))
  }

  lemma SaysBy(ms: seq<Member>, seqNo: nat, env: Envelope, id: string, idemKey: string, typ: string, from: string,
      to: string, body: string, ts: string)
    requires ms == NineMembers(seqNo, env.v, id, idemKey, typ, from, to, body, ts)
    requires Carries(id, env.id, 256) && Carries(idemKey, env.idemKey, 256) && Carries(typ, env.typ, 256)
    requires Carries(from, env.from, 256) && Carries(to, env.to, 256) && Carries(ts, env.ts, 256)
    requires Carries(body, env.body, BodyRoom(seqNo, env.v, id, idemKey, typ, from, to, ts))
    ensures Says(ms, seqNo, env)
  {
    hide NineMembers, Carries, BodyRoom;
  }

  /** A line whose text, read as JSON, is the row of the envelope. */
  ghost predicate IsRowOf(row: string, seqNo: nat, env: Envelope) {
    && row != [] && row[|row| - 1] == '\n'
    && var r := Parse(row[..|row| - 1]);
    r.Ok? && r.value.Obj? && Says(r.value.members, seqNo, env)
  }

  /**
   Every row is the line of one JSON object with nine members, and each carries its own field of the
   envelope: the six short ones within 256 escaped bytes, the body within what the others leave of 4096.
   */
  lemma {:induction false} RowSays(seqNo: nat, env: Envelope)
    requires seqNo < U64_LIMIT && Typed(env)
    ensures IsRowOf(RowText(seqNo, env), seqNo, env)
  {
    var id, idemKey, typ := Elided(env.id, 256), Elided(env.idemKey, 256), Elided(env.typ, 256);
    var from, to, ts := Elided(env.from, 256), Elided(env.to, 256), Elided(env.ts, 256);
    var body := Elided(env.body, BodyBudget(seqNo, env));
    var line := Object(NineFields(seqNo, env.v, Escaped(id), Escaped(idemKey), Escaped(typ), Escaped(from), Escaped(to),
      Escaped(body), Escaped(ts)));
    RowLineIs(seqNo, env);
    hide Parse, Object, NineFields, NineMembers, RowText, Elided, Escaped, BodyBudget, Bytes, Carries, BodyRoom, Says;
    assert (line + "\n")[..|line|] == line;
    RowFits(seqNo, env);
    BytesAppend(line, "\n");
    RowParsesTo(seqNo, env.v, id, idemKey, typ, from, to, body, ts, line);
    ElidedCarries(env.id, 256);
    ElidedCarries(env.idemKey, 256);
    ElidedCarries(env.typ, 256);
    ElidedCarries(env.from, 256);
    ElidedCarries(env.to, 256);
    ElidedCarries(env.ts, 256);
    ElidedCarries(env.body, BodyBudget(seqNo, env));
    RoomIs(seqNo, env);
    SaysBy(NineMembers(seqNo, env.v, id, idemKey, typ, from, to, body, ts), seqNo, env, id, idemKey, typ, from, to,
      body, ts);
  }

  lemma RowLineIs(seqNo: nat, env: Envelope)
    ensures RowText(seqNo, env) == Object(NineFields(seqNo, env.v, Escaped(Elided(env.id, 256)),
      Escaped(Elided(env.idemKey, 256)), Escaped(Elided(env.typ, 256)), Escaped(Elided(env.from, 256)),
      Escaped(Elided(env.to, 256)), Escaped(Elided(env.body, BodyBudget(seqNo, env))),
      Escaped(Elided(env.ts, 256)))) + "\n"
  {
    hide Opening, HeadOf, LedgerRow.RowOf, Object, NineFields, Elided, Escaped, BodyBudget;
    RowIsObject(seqNo, env.v, Field(env.id), Field(env.idemKey), Field(env.typ), Field(env.from), Field(env.to),
      Escaped(Elided(env.body, BodyBudget(seqNo, env))), Field(env.ts));
  }

  /** The row without its body takes the bytes the writer counts as used. */
  lemma RoomIs(seqNo: nat, env: Envelope)
    ensures BodyBudget(seqNo, env) == BodyRoom(seqNo, env.v, Elided(env.id, 256), Elided(env.idemKey, 256),
      Elided(env.typ, 256), Elided(env.from, 256), Elided(env.to, 256), Elided(env.ts, 256))
  {
    hide Opening, HeadOf, Object, NineFields, NineMembers, Elided, Escaped, Bytes, WriteValue, WritesAll;
    var id, idemKey, typ := Elided(env.id, 256), Elided(env.idemKey, 256), Elided(env.typ, 256);
    var from, to, ts := Elided(env.from, 256), Elided(env.to, 256), Elided(env.ts, 256);
    NineWritten(seqNo, env.v, id, idemKey, typ, from, to, "", ts);
    ObjectIsWritten(NineFields(seqNo, env.v, Escaped(id), Escaped(idemKey), Escaped(typ), Escaped(from), Escaped(to),
      Escaped(""), Escaped(ts)), NineMembers(seqNo, env.v, id, idemKey, typ, from, to, "", ts));
    RowIsObject(seqNo, env.v, Escaped(id), Escaped(idemKey), Escaped(typ), Escaped(from), Escaped(to), Escaped(""),
      Escaped(ts));
    EmptyBytes(Head(seqNo, env), Escaped(ts));
  }

  lemma EmptyBytes(head: string, ts: string)
    ensures Bytes(LedgerRow.RowOf(head, Escaped(""), ts)) == Bytes(head) + Bytes(LedgerRow.Put(TS_KEY, ts, CLOSE))
  {
    KeysAscii();
    assert Escaped("") == "" && Bytes("") == 0;
    hide Bytes, Escaped, LedgerRow.Put, Ascii;
    PutBytes(head, "", TS_KEY);
    PutBytes(LedgerRow.Put(head, "", TS_KEY), ts, CLOSE);
    TailBytes(TS_KEY, ts, CLOSE);
  }
}
