/** The WebSocket endpoint: each text message is an already-decoded JSON
    object; `init` binds the connection's attributes, `init` and `ping`
    mark the sender online, and closing a bound connection marks it offline. */
module PingSocket {
  import opened Common
  import opened Tables

  /** A value of the decoded message as the JSON decoder hands it over.
      JOther stands for any other value (a non-integral number, an array, an
      object), carrying the text Java's String.valueOf gives it. */
  datatype JsonValue = JNull | JString(s: string) | JInteger(n: int) | JBoolean(b: bool) | JOther(rendered: string)

  type Message = map<string, JsonValue>

  /** String.valueOf of a value. */
  function ValueText(v: JsonValue): string {
    match v
    case JNull => "null"
    case JString(s) => s
    case JInteger(n) => DecimalText(n)
    case JBoolean(b) => if b then "true" else "false"
    case JOther(t) => t
  }

  /** `get`: the value's text, null when the key is absent or holds null. */
  function Get(m: Message, k: string): (r: Option<string>)
    ensures r.None? <==> k !in m || m[k] == JNull
    ensures k in m && m[k].JString? ==> r == Some(m[k].s)
    ensures k in m && m[k].JInteger? ==> r == Some(DecimalText(m[k].n))
    ensures k in m && m[k].JBoolean? ==> r == Some(if m[k].b then "true" else "false")
    ensures k in m && m[k].JOther? ==> r == Some(m[k].rendered)
  {
    if k !in m || m[k] == JNull then None else Some(ValueText(m[k]))
  }

  // ------------------------------------------------------ Java's Long.valueOf

  const MinLong: int := -0x8000_0000_0000_0000
  const MaxLong: int := 0x7fff_ffff_ffff_ffff

  predicate InLongRange(n: int) {
    MinLong <= n <= MaxLong
  }

  function InRange(n: int): (r: Option<int>)
    ensures r.Some? <==> InLongRange(n)
    ensures r.Some? ==> r.value == n
  {
    if InLongRange(n) then Some(n) else None
  }

  /** The text Long.valueOf accepts before its range check: at least one
      decimal digit, after an optional '+' or '-'. */
  predicate LongSyntax(s: string) {
    || (|s| >= 1 && AllDigits(s))
    || (|s| >= 2 && (s[0] == '+' || s[0] == '-') && AllDigits(s[1..]))
  }

  /** The number such a text denotes; leading zeros do not matter. */
  function SignedValue(s: string): int
    requires LongSyntax(s)
  {
    if s[0] == '-' then -(DigitsValue(s[1..]) as int)
    else if s[0] == '+' then DigitsValue(s[1..])
    else DigitsValue(s)
  }

  /** Long.valueOf(String): an optional sign then at least one decimal digit,
      the value within the 64-bit signed range; None where Java throws
      NumberFormatException. */
  function ParseLong(s: string): (r: Option<int>)
    ensures r.Some? <==> LongSyntax(s) && InLongRange(SignedValue(s))
    ensures r.Some? ==> r.value == SignedValue(s)
  {
    if |s| == 0 then None
    else if s[0] == '-' || s[0] == '+' then
      if |s| >= 2 && AllDigits(s[1..]) then
        var v: int := DigitsValue(s[1..]);
        InRange(if s[0] == '-' then -v else v)
      else None
    else if AllDigits(s) then InRange(DigitsValue(s))
    else None
  }

  /** Long.valueOf reads back what Long.toString (and BigInteger.toString) writes,
      exactly when the number fits in a long. */
  lemma ParseLongOfDecimalText(n: int)
    ensures ParseLong(DecimalText(n)) == InRange(n)
  {
    var s := DecimalText(n);
    if n >= 0 {
      assert IsDigit(s[0]);
    }
  }

  /** A leading zero does not change the value of a run of digits. */
  lemma {:induction false} LeadingZeroValue(d: string)
    requires AllDigits(d)
    ensures AllDigits("0" + d) && DigitsValue("0" + d) == DigitsValue(d)
    decreases |d|
  {
    var z := "0" + d;
    assert AllDigits(z) by {
      forall i | 0 <= i < |z| ensures IsDigit(z[i]) {
        if i > 0 { assert z[i] == d[i - 1]; }
      }
    }
    if d == [] {
      assert z == "0";
      assert z[..0] == [];
    } else {
      var init := d[..|d| - 1];
      assert z[..|z| - 1] == "0" + init;
      assert z[|z| - 1] == d[|d| - 1];
      LeadingZeroValue(init);
    }
  }

  /** Long.valueOf also takes an explicit '+' and leading zeros, which
      Long.toString never writes. */
  lemma ParseLongNonCanonical(n: nat)
    ensures ParseLong("+" + DecimalText(n)) == InRange(n)
    ensures ParseLong("0" + DecimalText(n)) == InRange(n)
    ensures ParseLong("-0" + DecimalText(n)) == InRange(-(n as int))
  {
    var d := DecimalText(n);
    LeadingZeroValue(d);
    assert ("+" + d)[1..] == d;
    assert ("-0" + d)[1..] == "0" + d;
    assert ("-0" + d)[0] == '-';
    assert ("0" + d)[0] == '0';
  }

  /** Texts Long.valueOf accepts, with the values it gives. */
  lemma ParseLongAccepts()
    ensures ParseLong("5") == Some(5) && ParseLong("+5") == Some(5)
    ensures ParseLong("007") == Some(7) && ParseLong("-0") == Some(0)
  {
    assert "5"[..0] == [];
    assert "+5"[1..] == "5";
    assert "-0"[1..] == "0" && "0"[..0] == [];
    assert "007"[..2] == "00" && "00"[..1] == "0";
    assert LongSyntax("007");
  }

  /** Texts Long.valueOf rejects with NumberFormatException. */
  lemma ParseLongRejects()
    ensures ParseLong("") == None && ParseLong("+") == None && ParseLong("-") == None
    ensures ParseLong("1a") == None && ParseLong(" 1") == None
  {
    assert !IsDigit("1a"[1]);
    assert !IsDigit(" 1"[0]);
  }

  /** The ends of the range: the smallest long is read, one past the
      largest is not. */
  lemma ParseLongBounds()
    ensures ParseLong(DecimalText(MinLong)) == Some(MinLong)
    ensures ParseLong(DecimalText(MaxLong + 1)) == None
  {
    ParseLongOfDecimalText(MinLong);
    ParseLongOfDecimalText(MaxLong + 1);
  }

  /** `getLong`: null for a missing key, a null value, or a text Long.valueOf
      rejects; never throws. */
  function GetLong(m: Message, k: string): (r: Option<int>)
    ensures k !in m || m[k] == JNull ==> r.None?
    ensures r.Some? ==> InLongRange(r.value)
    ensures k in m && m[k].JInteger? ==> r == InRange(m[k].n)
    ensures k in m && m[k].JString? ==> r == ParseLong(m[k].s)
    ensures k in m && m[k].JBoolean? ==> r.None?
    ensures k in m && m[k].JOther? ==> r == ParseLong(m[k].rendered)
  {
    if k !in m || m[k] == JNull then None
    else if m[k].JInteger? then
      ParseLongOfDecimalText(m[k].n);
      ParseLong(ValueText(m[k]))
    else ParseLong(ValueText(m[k]))
  }

  // ------------------------------------------------------ the message type

  /** String.equalsIgnoreCase for ASCII letters. */
  predicate EqualsIgnoreCase(a: string, b: string) {
    |a| == |b| && forall i :: 0 <= i < |a| ==> AsciiUpper(a[i]) == AsciiUpper(b[i])
  }

  /** `word.equalsIgnoreCase(type)`, false for a null type. */
  predicate IsType(t: Option<string>, word: string) {
    t.Some? && EqualsIgnoreCase(word, t.value)
  }

  function UpperText(s: string): (u: string)
    ensures |u| == |s| && forall i :: 0 <= i < |s| ==> u[i] == AsciiUpper(s[i])
  {
    seq(|s|, i requires 0 <= i < |s| => AsciiUpper(s[i]))
  }

  /** The type is compared without regard to case: upper-casing it changes nothing. */
  lemma TypeMatchIgnoresCase(t: string, word: string)
    ensures IsType(Some(t), word) <==> IsType(Some(UpperText(t)), word)
  {
    var u := UpperText(t);
    if IsType(Some(u), word) {
      forall i | 0 <= i < |word| ensures AsciiUpper(word[i]) == AsciiUpper(t[i]) {
        assert AsciiUpper(word[i]) == AsciiUpper(u[i]);
      }
    }
  }

  /** The fields handleTextMessage reads from a message. */
  datatype Fields = Fields(
    msgType: Option<string>,
    email: Option<string>,
    userId: Option<int>,
    host: Option<string>,
    platform: Option<string>)

  function FieldsOf(m: Message): Fields {
    Fields(Get(m, "type"), Get(m, "email"), GetLong(m, "userId"), Get(m, "host"), Get(m, "platform"))
  }

  predicate IsInit(f: Fields) {
    IsType(f.msgType, "init")
  }

  predicate IsHeartbeat(f: Fields) {
    IsType(f.msgType, "init") || IsType(f.msgType, "ping")
  }

  // ------------------------------------------------------ connection binding

  /** A connection attribute value: the bound email or the bound user id. */
  datatype Attr = AttrString(s: string) | AttrLong(n: int)

  type Attributes = map<string, Attr>

  /** The attributes this handler ever stores: a string email and a long user id. */
  ghost predicate WellFormed(a: Attributes) {
    && ("email" in a ==> a["email"].AttrString?)
    && ("userId" in a ==> a["userId"].AttrLong? && InLongRange(a["userId"].n))
  }

  /** Lines 46-53: only `init` binds, and each of email and userId only when
      it is non-null; every other attribute is left alone. */
  function Bind(a: Attributes, f: Fields): (a': Attributes)
    ensures !IsInit(f) ==> a' == a
    ensures IsInit(f) && f.email.Some? ==> "email" in a' && a'["email"] == AttrString(f.email.value)
    ensures IsInit(f) && f.email.None? ==>
      ("email" in a' <==> "email" in a) && ("email" in a ==> a'["email"] == a["email"])
    ensures IsInit(f) && f.userId.Some? ==> "userId" in a' && a'["userId"] == AttrLong(f.userId.value)
    ensures IsInit(f) && f.userId.None? ==>
      ("userId" in a' <==> "userId" in a) && ("userId" in a ==> a'["userId"] == a["userId"])
    ensures forall k :: k != "email" && k != "userId" ==> (k in a' <==> k in a) && (k in a ==> a'[k] == a[k])
  {
    if !IsInit(f) then a
    else
      var withEmail := if f.email.Some? then a["email" := AttrString(f.email.value)] else a;
      if f.userId.Some? then withEmail["userId" := AttrLong(f.userId.value)] else withEmail
  }

  /** Binding keeps the attributes well formed. */
  lemma BindWellFormed(a: Attributes, m: Message)
    requires WellFormed(a)
    ensures WellFormed(Bind(a, FieldsOf(m)))
  {
  }

  /** The user id bound to the connection, as afterConnectionClosed reads it. */
  function BoundUserId(a: Attributes): Option<int>
    requires WellFormed(a)
  {
    if "userId" in a then Some(a["userId"].n) else None
  }

  /** Lines 54-60 on the state table: `init` and `ping` upsert online for the
      message's own email, whatever the connection is bound to. */
  function MessageEffect(t: StateTable, f: Fields, now: int): StateTable
    requires f.email.Some?
  {
    if IsHeartbeat(f) then UpsertOnline(t, f.email.value, f.userId, f.host, f.platform, now) else t
  }

  /** Lines 64-73 on the state table: a bound connection's close upserts
      offline for the bound email and user id; an unbound one writes nothing. */
  function CloseEffect(t: StateTable, a: Attributes, now: int): StateTable
    requires WellFormed(a)
  {
    if "email" in a then UpsertOffline(t, a["email"].s, BoundUserId(a), now) else t
  }

  /** How a message ends: handled, or the write refused for a null email. */
  datatype Outcome = Ok | MissingEmail

  class Session {
    var attributes: Attributes

    constructor ()
      ensures attributes == map[]
    {
      attributes := map[];
    }
  }

  class PingWebSocketHandler {
    const jdbc: Database

    constructor (jdbc: Database)
      ensures this.jdbc == jdbc
    {
      this.jdbc := jdbc;
    }

    method HandleTextMessage(session: Session, m: Message, now: int) returns (outcome: Outcome)
      requires WellFormed(session.attributes)
      modifies session, jdbc
      ensures WellFormed(session.attributes)
      ensures session.attributes == Bind(old(session.attributes), FieldsOf(m))
      ensures jdbc.userInfo == old(jdbc.userInfo) && jdbc.usageLogs == old(jdbc.usageLogs)
      ensures !IsHeartbeat(FieldsOf(m)) ==> outcome == Ok && jdbc.userState == old(jdbc.userState)
      ensures IsHeartbeat(FieldsOf(m)) && FieldsOf(m).email.None? ==>
        outcome == MissingEmail && jdbc.userState == old(jdbc.userState)
      ensures IsHeartbeat(FieldsOf(m)) && FieldsOf(m).email.Some? ==>
        outcome == Ok && jdbc.userState == MessageEffect(old(jdbc.userState), FieldsOf(m), now)
    {
      var msgType := Get(m, "type");
      var email := Get(m, "email");
      var userId := GetLong(m, "userId");
      var host := Get(m, "host");
      var platform := Get(m, "platform");
      ghost var f := Fields(msgType, email, userId, host, platform);
      BindWellFormed(session.attributes, m);
      if IsType(msgType, "init") {
        if email.Some? {
          session.attributes := session.attributes["email" := AttrString(email.value)];
        }
        if userId.Some? {
          session.attributes := session.attributes["userId" := AttrLong(userId.value)];
        }
      }
      outcome := Ok;
      if IsType(msgType, "init") || IsType(msgType, "ping") {
        if email.None? {
          outcome := MissingEmail;
        } else {
          jdbc.userState := UpsertOnline(jdbc.userState, email.value, userId, host, platform, now);
        }
      }
    }

    method AfterConnectionClosed(session: Session, now: int)
      requires WellFormed(session.attributes)
      modifies jdbc
      ensures jdbc.userInfo == old(jdbc.userInfo) && jdbc.usageLogs == old(jdbc.usageLogs)
      ensures jdbc.userState == CloseEffect(old(jdbc.userState), session.attributes, now)
    {
      var a := session.attributes;
      if "email" in a {
        var userId: Option<int> := None;
        if "userId" in a {
          // Long.valueOf(String.valueOf(userId)) on a stored long gives it back.
          ParseLongOfDecimalText(a["userId"].n);
          userId := ParseLong(DecimalText(a["userId"].n));
        }
        jdbc.userState := UpsertOffline(jdbc.userState, a["email"].s, userId, now);
      }
    }
  }

  // ------------------------------------------------------------- properties

  /** A `ping` never changes the connection's attributes. */
  lemma PingKeepsAttributes(a: Attributes, m: Message)
    requires IsType(Get(m, "type"), "ping")
    ensures Bind(a, FieldsOf(m)) == a
  {
    var t := Get(m, "type").value;
    assert AsciiUpper("init"[0]) != AsciiUpper("ping"[0]);
    assert AsciiUpper("ping"[0]) == AsciiUpper(t[0]);
  }

  /** The last `init` that carries an email decides the binding, and an
      `init` without one keeps the earlier binding. */
  lemma LastInitWithEmailWins(a: Attributes, first: Fields, second: Fields)
    requires IsInit(first) && first.email.Some? && IsInit(second)
    ensures second.email.Some? ==> Bind(Bind(a, first), second)["email"] == AttrString(second.email.value)
    ensures second.email.None? ==> Bind(Bind(a, first), second)["email"] == AttrString(first.email.value)
  {
  }

  /** Closing a connection writes at most one row: the bound email's, offline at
      the close time with the bound user id; host and platform of an existing
      row are kept; a connection that never bound an email writes nothing. */
  lemma CloseWritesOnlyBoundEmail(t: StateTable, a: Attributes, now: int)
    requires WellFormed(a)
    ensures "email" !in a ==> CloseEffect(t, a, now) == t
    ensures "email" in a ==>
      var e := a["email"].s;
      var t' := CloseEffect(t, a, now);
      && !t'[e].online && t'[e].lastSeen == now
      && (e in t ==> t'[e].host == t[e].host && t'[e].platform == t[e].platform)
      && (e !in t ==> t'[e].userId == BoundUserId(a))
      && OthersUnchanged(t, t', e)
  {
  }

  /** An `init` naming an email followed at once by close leaves that email
      offline at the close time. */
  lemma InitThenCloseIsOffline(t: StateTable, m: Message, now: int, closedAt: int)
    requires IsInit(FieldsOf(m)) && FieldsOf(m).email.Some?
    ensures var f := FieldsOf(m);
            var a := Bind(map[], f);
            WellFormed(a) &&
            var t' := CloseEffect(MessageEffect(t, f, now), a, closedAt);
            !t'[f.email.value].online && t'[f.email.value].lastSeen == closedAt
  {
    BindWellFormed(map[], m);
  }
}
