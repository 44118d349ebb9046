/** The RESP dialogue of the Redis probe: the command printer, an independent reader for what
    it prints, the scalar-reply reader, and one AUTH-then-PING attempt on one connection. */
module Resp {
  import opened Wrappers
  import opened Decimal

  type byte = b: int | 0 <= b < 256

  type Bytes = seq<byte>

  const CR: byte := 13
  const LF: byte := 10
  const CRLF: Bytes := [CR, LF]
  const ASTERISK: byte := 42
  const PLUS: byte := 43
  const MINUS: byte := 45
  const DOLLAR: byte := 36

  const AUTH: Bytes := [65, 85, 84, 72]
  const PING: Bytes := [80, 73, 78, 71]
  const PONG: Bytes := [80, 79, 78, 71]
  const OKAY: Bytes := [79, 75]
  const LOADING: Bytes := [76, 79, 65, 68, 73, 78, 71]

  // ------------------------------------------------------------------ printing commands

  predicate Injects(part: Bytes) { CR in part || LF in part }

  predicate Clean(parts: seq<Bytes>) {
    forall k :: 0 <= k < |parts| ==> !Injects(parts[k])
  }

  function Numeral(n: nat): (s: Bytes)
    ensures s != [] && forall k :: 0 <= k < |s| ==> 48 <= s[k] <= 57
  {
    var ds := Digits(n);
    seq(|ds|, k requires 0 <= k < |ds| => ds[k] as int + 48)
  }

  function Header(prefix: byte, n: nat): Bytes { [prefix] + Numeral(n) + CRLF }

  function Bulk(part: Bytes): Bytes { Header(DOLLAR, |part|) + (part + CRLF) }

  function Bulks(parts: seq<Bytes>): Bytes {
    if parts == [] then [] else Bulk(parts[0]) + Bulks(parts[1..])
  }

  function Printed(parts: seq<Bytes>): Bytes { Header(ASTERISK, |parts|) + Bulks(parts) }

  lemma {:induction false} BulksGrow(parts: seq<Bytes>, part: Bytes)
    ensures Bulks(parts + [part]) == Bulks(parts) + Bulk(part)
  {
    if parts == [] {
      assert ([] + [part])[1..] == [];
    } else {
      assert (parts + [part])[1..] == parts[1..] + [part];
      BulksGrow(parts[1..], part);
    }
  }

  /** None is the protocol violation raised for control characters, before anything is sent. */
  method RespCommand(parts: seq<Bytes>) returns (wire: Option<Bytes>)
    ensures wire == if Clean(parts) then Some(Printed(parts)) else None
  {
    hide Header;
    var chunks := Header(ASTERISK, |parts|);
    for i := 0 to |parts|
      invariant Clean(parts[..i])
      invariant chunks == Header(ASTERISK, |parts|) + Bulks(parts[..i])
    {
      if CR in parts[i] || LF in parts[i] { return None; }
      chunks := chunks + Header(DOLLAR, |parts[i]|);
      chunks := chunks + (parts[i] + CRLF);
      BulksGrow(parts[..i], parts[i]);
      assert parts[..i + 1] == parts[..i] + [parts[i]];
    }
    assert parts[..|parts|] == parts;
    wire := Some(chunks);
  }

  // ------------------------------------------------------------------ reading them back

  /** Where the first CRLF starts. */
  function LineEnd(s: Bytes): (n: Option<nat>)
    ensures n.Some? ==> n.value + 2 <= |s| && s[n.value] == CR && s[n.value + 1] == LF
    ensures n.Some? ==> forall k :: 0 <= k < n.value ==> !(s[k] == CR && s[k + 1] == LF)
    ensures n.None? ==> forall k :: 0 <= k < |s| - 1 ==> !(s[k] == CR && s[k + 1] == LF)
  {
    if |s| < 2 then None
    else if s[0] == CR && s[1] == LF then Some(0)
    else match LineEnd(s[1..])
         case None => None
         case Some(n) => Some(n + 1)
  }

  predicate Numeric(s: Bytes) {
    s != [] && forall k :: 0 <= k < |s| ==> 48 <= s[k] <= 57
  }

  function DigitsIn(s: Bytes): seq<Digit>
    requires forall k :: 0 <= k < |s| ==> 48 <= s[k] <= 57
  {
    seq(|s|, k requires 0 <= k < |s| => s[k] as int - 48)
  }

  /** A `*` or `$` line as the RESP grammar has it: the count, and what follows. */
  function ParseHeader(prefix: byte, s: Bytes): Option<(nat, Bytes)> {
    var n := LineEnd(s);
    if n.None? || n.value == 0 || s[0] != prefix || !Numeric(s[1..n.value]) then None
    else Some((Value(DigitsIn(s[1..n.value])), s[n.value + 2..]))
  }

  function ParseBulk(s: Bytes): Option<(Bytes, Bytes)> {
    var h := ParseHeader(DOLLAR, s);
    if h.None? then None
    else
      var (n, rest) := h.value;
      if |rest| < n + 2 || rest[n..n + 2] != CRLF then None else Some((rest[..n], rest[n + 2..]))
  }

  function ParseBulks(n: nat, s: Bytes): Option<(seq<Bytes>, Bytes)> {
    if n == 0 then Some(([], s))
    else
      var first := ParseBulk(s);
      if first.None? then None
      else
        var others := ParseBulks(n - 1, first.value.1);
        if others.None? then None else Some(([first.value.0] + others.value.0, others.value.1))
  }

  /** One command: an array of bulk strings, and what follows it. */
  function ParseCommand(s: Bytes): Option<(seq<Bytes>, Bytes)> {
    var h := ParseHeader(ASTERISK, s);
    if h.None? then None else ParseBulks(h.value.0, h.value.1)
  }

  predicate NoLineEnd(s: Bytes) {
    forall k :: 0 <= k < |s| - 1 ==> !(s[k] == CR && s[k + 1] == LF)
  }

  lemma FirstLineEnd(a: Bytes, rest: Bytes)
    requires NoLineEnd(a)
    ensures LineEnd(a + CRLF + rest) == Some(|a|)
  {
    var s := a + CRLF + rest;
    assert s[|a|] == CR && s[|a| + 1] == LF;
    var n := LineEnd(s);
    assert forall k :: 0 <= k < |a| ==> s[k] == a[k];
    assert n.Some? && n.value <= |a|;
  }

  lemma HeaderRoundTrip(prefix: byte, n: nat, rest: Bytes)
    requires prefix != CR
    ensures ParseHeader(prefix, Header(prefix, n) + rest) == Some((n, rest))
  {
    var line := [prefix] + Numeral(n);
    var s := Header(prefix, n) + rest;
    assert s == line + CRLF + rest;
    FirstLineEnd(line, rest);
    assert s[1..|line|] == Numeral(n);
    assert DigitsIn(Numeral(n)) == Digits(n);
    ValueOfDigits(n);
    assert s[|line| + 2..] == rest;
  }

  lemma BulkRoundTrip(part: Bytes, rest: Bytes)
    ensures ParseBulk(Bulk(part) + rest) == Some((part, rest))
  {
    var tail := part + CRLF + rest;
    assert Bulk(part) + rest == Header(DOLLAR, |part|) + tail;
    HeaderRoundTrip(DOLLAR, |part|, tail);
    assert tail[|part|..|part| + 2] == CRLF && tail[..|part|] == part && tail[|part| + 2..] == rest;
  }

  lemma {:induction false} BulksRoundTrip(parts: seq<Bytes>, rest: Bytes)
    ensures ParseBulks(|parts|, Bulks(parts) + rest) == Some((parts, rest))
  {
    hide Bulk, ParseBulk;
    if parts == [] {
      assert Bulks(parts) + rest == rest;
    } else {
      var tail := Bulks(parts[1..]) + rest;
      assert Bulks(parts) + rest == Bulk(parts[0]) + tail;
      BulkRoundTrip(parts[0], tail);
      BulksRoundTrip(parts[1..], rest);
      assert [parts[0]] + parts[1..] == parts;
    }
  }

  /** Whatever the arguments contain, a printed command reads back as exactly those arguments,
      and reading stops exactly where the command ends. */
  lemma CommandRoundTrip(parts: seq<Bytes>, rest: Bytes)
    ensures ParseCommand(Printed(parts) + rest) == Some((parts, rest))
  {
    assert Printed(parts) + rest == Header(ASTERISK, |parts|) + (Bulks(parts) + rest);
    HeaderRoundTrip(ASTERISK, |parts|, Bulks(parts) + rest);
    BulksRoundTrip(parts, rest);
  }

  /** Every command on a wire, if it holds nothing but commands. */
  function ParseAll(s: Bytes): Option<seq<seq<Bytes>>>
    decreases |s|
  {
    if s == [] then Some([])
    else
      var first := ParseCommand(s);
      if first.None? || |first.value.1| >= |s| then None
      else
        var others := ParseAll(first.value.1);
        if others.None? then None else Some([first.value.0] + others.value)
  }

  lemma OneMoreCommand(parts: seq<Bytes>, rest: Bytes)
    ensures ParseAll(Printed(parts) + rest) ==
            match ParseAll(rest) case None => None case Some(cs) => Some([parts] + cs)
  {
    CommandRoundTrip(parts, rest);
    assert |Printed(parts)| > 0;
  }

  // ------------------------------------------------------------------ integers as Python reads them

  predicate IsSpace(b: byte) { 9 <= b <= 13 || b == 32 }

  const UNDERSCORE: byte := 95

  function StripLeft(s: Bytes): Bytes {
    if s != [] && IsSpace(s[0]) then StripLeft(s[1..]) else s
  }

  function StripRight(s: Bytes): Bytes {
    if s != [] && IsSpace(s[|s| - 1]) then StripRight(s[..|s| - 1]) else s
  }

  /** Digits with single underscores between them. */
  predicate Grouped(s: Bytes) {
    && s != [] && s[0] != UNDERSCORE && s[|s| - 1] != UNDERSCORE
    && (forall k :: 0 <= k < |s| ==> 48 <= s[k] <= 57 || s[k] == UNDERSCORE)
    && (forall k :: 0 <= k < |s| - 1 ==> !(s[k] == UNDERSCORE && s[k + 1] == UNDERSCORE))
  }

  function WithoutUnderscores(s: Bytes): (r: Bytes)
    requires forall k :: 0 <= k < |s| ==> 48 <= s[k] <= 57 || s[k] == UNDERSCORE
    ensures forall k :: 0 <= k < |r| ==> 48 <= r[k] <= 57
  {
    if s == [] then []
    else if s[0] == UNDERSCORE then WithoutUnderscores(s[1..])
    else [s[0]] + WithoutUnderscores(s[1..])
  }

  /** `int(payload)`: surrounding space, one sign and digit grouping are tolerated. */
  function PyInt(payload: Bytes): Option<int> {
    var s := StripRight(StripLeft(payload));
    var signed := s != [] && (s[0] == MINUS || s[0] == PLUS);
    var body := if signed then s[1..] else s;
    if !Grouped(body) then None
    else
      var n: int := Value(DigitsIn(WithoutUnderscores(body)));
      Some(if signed && s[0] == MINUS then -n else n)
  }

  lemma {:induction false} NothingToRemove(s: Bytes)
    requires forall k :: 0 <= k < |s| ==> 48 <= s[k] <= 57
    ensures WithoutUnderscores(s) == s
  {
    if s != [] {
      NothingToRemove(s[1..]);
      assert s == [s[0]] + s[1..];
    }
  }

  lemma PyIntOfNumeral(n: nat)
    ensures PyInt(Numeral(n)) == Some(n)
  {
    assert DigitsIn(Numeral(n)) == Digits(n);
    hide Numeral, Digits, Value, StripLeft, StripRight;
    NothingToRemove(Numeral(n));
    NothingToStrip(Numeral(n));
    ValueOfDigits(n);
  }

  lemma NothingToStrip(s: Bytes)
    requires s != [] ==> !IsSpace(s[0]) && !IsSpace(s[|s| - 1])
    ensures StripRight(StripLeft(s)) == s
  {
  }

  predicate Spaces(s: Bytes) { forall k :: 0 <= k < |s| ==> 9 <= s[k] <= 13 || s[k] == 32 }

  /** Digits, and underscores only between two of them. */
  predicate Groups(s: Bytes) {
    && (forall k :: 0 <= k < |s| ==> 48 <= s[k] <= 57 || s[k] == 95)
    && (forall k :: 0 <= k < |s| - 1 ==> s[k] != 95 || s[k + 1] != 95)
    && s != [] && s[0] != 95 && s[|s| - 1] != 95
  }

  predicate IntegerText(payload: Bytes, n: int, before: Bytes, sign: Bytes, body: Bytes, after: Bytes) {
    && payload == before + (sign + body) + after
    && Spaces(before) && Spaces(after) && (sign == [] || sign == [43] || sign == [45]) && Groups(body)
    && n == (if sign == [45] then -1 else 1) * Value(DigitsIn(WithoutUnderscores(body)))
  }

  lemma GroupedMeansGroups(s: Bytes)
    ensures Grouped(s) <==> Groups(s)
  {
  }

  lemma {:induction false} LeftSpaces(before: Bytes, s: Bytes)
    requires Spaces(before) && s != [] && !IsSpace(s[0])
    ensures StripLeft(before + s) == s
  {
    if before == [] {
      assert before + s == s;
    } else {
      LeftSpaces(before[1..], s);
      assert (before + s)[1..] == before[1..] + s;
    }
  }

  lemma {:induction false} RightSpaces(s: Bytes, after: Bytes)
    requires Spaces(after) && s != [] && !IsSpace(s[|s| - 1])
    ensures StripRight(s + after) == s
    decreases |after|
  {
    if after == [] {
      assert s + after == s;
    } else {
      var init := after[..|after| - 1];
      RightSpaces(s, init);
      assert (s + after)[..|s + after| - 1] == s + init;
    }
  }

  lemma {:induction false} LeftIsSpaces(s: Bytes) returns (before: Bytes)
    ensures Spaces(before) && s == before + StripLeft(s)
  {
    if s != [] && IsSpace(s[0]) {
      before := LeftIsSpaces(s[1..]);
      before := [s[0]] + before;
    } else {
      before := [];
    }
  }

  lemma {:induction false} RightIsSpaces(s: Bytes) returns (after: Bytes)
    ensures Spaces(after) && s == StripRight(s) + after
    decreases |s|
  {
    if s != [] && IsSpace(s[|s| - 1]) {
      after := RightIsSpaces(s[..|s| - 1]);
      after := after + [s[|s| - 1]];
    } else {
      after := [];
    }
  }

  /** Which texts are read as which integers: spaces, a sign or none, digits in groups, spaces. */
  lemma PyIntExactly(payload: Bytes, n: int)
    ensures PyInt(payload) == Some(n) <==> exists before, sign, body, after :: IntegerText(payload, n, before, sign, body, after)
  {
    if PyInt(payload) == Some(n) { var before, sign, body, after := IntegerWasText(payload, n); }
    hide PyInt, IntegerText;
    if before, sign, body, after :| IntegerText(payload, n, before, sign, body, after) { TextIsInteger(payload, n, before, sign, body, after); }
  }

  lemma IntegerWasText(payload: Bytes, n: int) returns (before: Bytes, sign: Bytes, body: Bytes, after: Bytes)
    requires PyInt(payload) == Some(n)
    ensures IntegerText(payload, n, before, sign, body, after)
  {
    hide Spaces, StripLeft, StripRight, WithoutUnderscores, Value, DigitsIn, Groups, Grouped;
    before := LeftIsSpaces(payload);
    after := RightIsSpaces(StripLeft(payload));
    var s := StripRight(StripLeft(payload));
    var signed := s != [] && (s[0] == MINUS || s[0] == PLUS);
    sign, body := if signed then [s[0]] else [], if signed then s[1..] else s;
    assert s == sign + body;
    GroupedMeansGroups(body);
  }

  lemma TextIsInteger(payload: Bytes, n: int, before: Bytes, sign: Bytes, body: Bytes, after: Bytes)
    requires IntegerText(payload, n, before, sign, body, after)
    ensures PyInt(payload) == Some(n)
  {
    hide Spaces, StripLeft, StripRight, WithoutUnderscores, Value, DigitsIn, Groups, Grouped;
    var s := sign + body;
    NoOuterSpace(sign, body);
    GroupedMeansGroups(body);
    RightSpaces(s, after);
    assert payload == before + (s + after);
    LeftSpaces(before, s + after);
    assert sign != [] ==> s[1..] == body;
    assert sign == [] ==> s == body;
    hide IsSpace;
  }

  lemma NoOuterSpace(sign: Bytes, body: Bytes)
    requires (sign == [] || sign == [43] || sign == [45]) && Groups(body)
    ensures var s := sign + body;
            && s != [] && !IsSpace(s[0]) && !IsSpace(s[|s| - 1])
            && (sign == [] ==> s[0] != 43 && s[0] != 45)
  {
    var s := sign + body;
    assert s[|s| - 1] == body[|body| - 1];
    assert s[0] == if sign == [] then body[0] else sign[0];
  }

  // ------------------------------------------------------------------ replies

  /** What a read comes to: a reply, or the exception it raises. Incomplete is the peer
      closing early, Expired the attempt running out of time on a peer that stalls. */
  datatype Read<+T> = Got(reply: T) | Incomplete | Expired | Violation | BadInteger

  /** A scalar reply as the RESP grammar has it. */
  datatype Reply = Line(prefix: byte, text: Bytes) | BulkString(data: Bytes) | NullBulk

  predicate WellFormed(r: Reply) {
    r.Line? ==> NoLineEnd([r.prefix] + r.text) && r.prefix != DOLLAR && r.prefix != ASTERISK && r.prefix != CR
  }

  function OnTheWire(r: Reply): Bytes {
    match r
    case Line(prefix, text) => [prefix] + text + CRLF
    case BulkString(data) => Bulk(data)
    case NullBulk => [DOLLAR, MINUS, 49] + CRLF
  }

  /** The (prefix, payload) pair the reader keeps of it. */
  function Kept(r: Reply): (byte, Bytes) {
    match r
    case Line(prefix, text) => (prefix, text)
    case BulkString(data) => (DOLLAR, data)
    case NullBulk => (DOLLAR, [])
  }

  function Short<T>(stalls: bool): Read<T> { if stalls then Expired else Incomplete }

  /** One reply off the front of what the peer will ever send, and how much of it is used. */
  function ReplyAt(s: Bytes, stalls: bool): (r: (Read<(byte, Bytes)>, nat))
    ensures r.1 <= |s|
  {
    var n := LineEnd(s);
    if n.None? then (Short(stalls), 0)
    else if n.value == 0 then (Violation, 2)
    else
      var after := n.value + 2;
      if s[0] == DOLLAR then
        var length := PyInt(s[1..n.value]);
        if length.None? then (BadInteger, after)
        else if length.value < 0 then (Got((DOLLAR, [])), after)
        else if |s| - after < length.value + 2 then (Short(stalls), after)
        else (Got((DOLLAR, s[after..after + length.value])), after + length.value + 2)
      else if s[0] == ASTERISK then (Violation, after)
      else (Got((s[0], s[1..n.value])), after)
  }

  /** The reader takes exactly one scalar reply off the stream, whatever comes after it. */
  lemma ReadsExactlyOneReply(r: Reply, rest: Bytes, stalls: bool)
    requires WellFormed(r)
    ensures ReplyAt(OnTheWire(r) + rest, stalls) == (Got(Kept(r)), |OnTheWire(r)|)
  {
    match r
    case Line(prefix, text) =>
      FirstLine([prefix] + text, rest, stalls);
      assert ([prefix] + text)[1..] == text;
      assert OnTheWire(r) + rest == [prefix] + text + CRLF + rest;
    case BulkString(data) => ReadsBulk(data, rest, stalls);
    case NullBulk =>
      FirstLine([DOLLAR, MINUS, 49], rest, stalls);
      MinusOne();
      assert [DOLLAR, MINUS, 49][1..] == [MINUS, 49];
  }

  /** What the reader sees of the first line. */
  lemma FirstLine(line: Bytes, rest: Bytes, stalls: bool)
    requires NoLineEnd(line) && line != []
    ensures var s := line + CRLF + rest;
            && LineEnd(s) == Some(|line|) && s[0] == line[0] && s[1..|line|] == line[1..] && s[|line| + 2..] == rest
  {
    FirstLineEnd(line, rest);
  }

  lemma MinusOne()
    ensures PyInt([MINUS, 49]) == Some(-1)
  {
    NothingToStrip([MINUS, 49]);
    assert [MINUS, 49][1..] == [49];
    NothingToRemove([49]);
    assert DigitsIn([49]) == [1] && [1][..0] == [];
  }

  lemma ReadsBulk(data: Bytes, rest: Bytes, stalls: bool)
    ensures ReplyAt(Bulk(data) + rest, stalls) == (Got((DOLLAR, data)), |Bulk(data)|)
  {
    hide PyInt, Numeral, LineEnd;
    var line, tail := [DOLLAR] + Numeral(|data|), data + CRLF + rest;
    FirstLine(line, tail, stalls);
    PyIntOfNumeral(|data|);
    var s := line + CRLF + tail;
    assert Bulk(data) + rest == s;
    assert line[1..] == Numeral(|data|);
    assert s[|line| + 2..|line| + 2 + |data|] == s[|line| + 2..][..|data|] == data;
  }

  // ------------------------------------------------------------------ one attempt

  datatype Attempt = Ready | AuthFailed(secretOnWire: bool) | ConnectFailed | TimedOut | Unexpected

  function OnError(r: Read<(byte, Bytes)>): Attempt {
    match r
    case Incomplete => ConnectFailed
    case Expired => TimedOut
    case _ => Unexpected
  }

  /** One connection: what has been written, and how far what arrives has been read. */
  class Connection {
    const incoming: Bytes
    const stalls: bool
    var position: nat
    var wire: Bytes

    ghost predicate Valid() reads this { position <= |incoming| }

    constructor (incoming: Bytes, stalls: bool)
      ensures Valid() && position == 0 && wire == [] && this.incoming == incoming && this.stalls == stalls
    {
      this.incoming, this.stalls, position, wire := incoming, stalls, 0, [];
    }

    method Write(data: Bytes)
      modifies this`wire
      ensures wire == old(wire) + data
    {
      wire := wire + data;
    }

    method ReadUntilLineEnd() returns (line: Read<Bytes>)
      requires Valid()
      modifies this`position
      ensures Valid()
      ensures var n := LineEnd(incoming[old(position)..]);
              if n.None? then line == Short(stalls) && position == old(position)
              else line == Got(incoming[old(position)..][..n.value + 2]) && position == old(position) + n.value + 2
    {
      var n := LineEnd(incoming[position..]);
      if n.None? { return Short(stalls); }
      line := Got(incoming[position..][..n.value + 2]);
      position := position + n.value + 2;
    }

    method ReadExactly(n: nat) returns (data: Read<Bytes>)
      requires Valid()
      modifies this`position
      ensures Valid()
      ensures if |incoming| - old(position) < n then data == Short(stalls) && position == old(position)
              else data == Got(incoming[old(position)..old(position) + n]) && position == old(position) + n
    {
      if |incoming| - position < n { return Short(stalls); }
      data := Got(incoming[position..position + n]);
      position := position + n;
    }

    method ReadReply() returns (r: Read<(byte, Bytes)>)
      requires Valid()
      modifies this`position
      ensures Valid()
      ensures (r, position - old(position)) == ReplyAt(incoming[old(position)..], stalls)
    {
      hide PyInt, LineEnd;
      var line := ReadUntilLineEnd();
      if !line.Got? { return Short(stalls); }
      var text := line.reply;
      if |text| < 3 { return Violation; }
      var prefix, payload := text[0], text[1..|text| - 2];
      assert payload == incoming[old(position)..][1..|text| - 2];
      if prefix == DOLLAR {
        var length := PyInt(payload);
        if length.None? { return BadInteger; }
        if length.value < 0 { return Got((prefix, [])); }
        var data := ReadExactly(length.value + 2);
        if !data.Got? { return Short(stalls); }
        assert data.reply[..length.value] == incoming[old(position)..][|text|..|text| + length.value];
        return Got((prefix, data.reply[..length.value]));
      }
      if prefix == ASTERISK { return Violation; }
      r := Got((prefix, payload));
    }
  }

  lemma SecretDecides(secret: Bytes)
    ensures Clean([AUTH, secret]) <==> !Injects(secret)
    ensures Clean([PING])
  {
    assert !Injects(AUTH) && !Injects(PING);
    assert [AUTH, secret][0] == AUTH && [AUTH, secret][1] == secret;
  }

  /** AUTH and, only after its `+OK`, PING, both on the one connection. */
  method RedisAttempt(secret: Bytes, c: Connection) returns (outcome: Attempt)
    requires c.Valid() && c.position == 0 && c.wire == []
    modifies c
    ensures c.Valid()
    ensures (outcome, c.wire) == Dialogue(secret, c.incoming, c.stalls)
  {
    hide Printed, ReplyAt;
    SecretDecides(secret);
    var auth := RespCommand([AUTH, secret]);
    if auth.None? { return AuthFailed(false); }
    var ping := RespCommand([PING]);
    c.Write(auth.value);
    assert [] + auth.value == auth.value && c.incoming[0..] == c.incoming;
    var authReply := c.ReadReply();
    if !authReply.Got? { return OnError(authReply); }
    if authReply.reply.0 == MINUS {
      return if LOADING <= authReply.reply.1 then Unexpected else AuthFailed(true);
    }
    if authReply.reply != (PLUS, OKAY) { return Unexpected; }
    c.Write(ping.value);
    var pingReply := c.ReadReply();
    if !pingReply.Got? { return OnError(pingReply); }
    outcome := if pingReply.reply == (PLUS, PONG) then Ready else Unexpected;
  }

  /** The outcome and everything written, from everything the peer would send. */
  function Dialogue(secret: Bytes, incoming: Bytes, stalls: bool): (Attempt, Bytes) {
    if Injects(secret) then (AuthFailed(false), [])
    else
      var (first, used) := ReplyAt(incoming, stalls);
      var auth := Printed([AUTH, secret]);
      if !first.Got? then (OnError(first), auth)
      else if first.reply.0 == MINUS then (if LOADING <= first.reply.1 then Unexpected else AuthFailed(true), auth)
      else if first.reply != (PLUS, OKAY) then (Unexpected, auth)
      else
        var second := ReplyAt(incoming[used..], stalls).0;
        (if !second.Got? then OnError(second) else if second.reply == (PLUS, PONG) then Ready else Unexpected,
         auth + Printed([PING]))
  }

  /** A one-line reply is recognised exactly when its bytes come first. */
  lemma LineReplyIsItsBytes(s: Bytes, stalls: bool, prefix: byte, text: Bytes)
    requires WellFormed(Line(prefix, text))
    ensures ReplyAt(s, stalls).0 == Got((prefix, text)) <==> OnTheWire(Line(prefix, text)) <= s
    ensures ReplyAt(s, stalls).0 == Got((prefix, text)) ==> ReplyAt(s, stalls).1 == |text| + 3
  {
    var w := OnTheWire(Line(prefix, text));
    if w <= s {
      ReadsExactlyOneReply(Line(prefix, text), s[|w|..], stalls);
      assert s == w + s[|w|..];
    }
    if ReplyAt(s, stalls).0 == Got((prefix, text)) {
      var n := LineEnd(s).value;
      assert s[..n + 2] == [s[0]] + s[1..n] + [s[n], s[n + 1]];
      assert s[..n + 2] == w;
    }
  }

  /** Redis counts as ready exactly when the secret can be sent and the peer's stream begins
      with the two expected replies, one straight after the other. */
  lemma ReadyExactlyWhen(secret: Bytes, incoming: Bytes, stalls: bool)
    ensures Dialogue(secret, incoming, stalls).0 == Ready <==>
            !Injects(secret) && OnTheWire(Line(PLUS, OKAY)) + OnTheWire(Line(PLUS, PONG)) <= incoming
  {
    var ok, pong := OnTheWire(Line(PLUS, OKAY)), OnTheWire(Line(PLUS, PONG));
    LineReplyIsItsBytes(incoming, stalls, PLUS, OKAY);
    if ok <= incoming {
      LineReplyIsItsBytes(incoming[|ok|..], stalls, PLUS, PONG);
      assert incoming == ok + incoming[|ok|..];
      assert ok + pong <= incoming <==> pong <= incoming[|ok|..];
    }
    assert ok + pong <= incoming ==> ok <= incoming;
  }

  lemma WhatIsWritten(secret: Bytes, incoming: Bytes, stalls: bool)
    ensures Dialogue(secret, incoming, stalls).1 ==
            if Injects(secret) then []
            else Printed([AUTH, secret]) + (if OnTheWire(Line(PLUS, OKAY)) <= incoming then Printed([PING]) else [])
  {
    LineReplyIsItsBytes(incoming, stalls, PLUS, OKAY);
    hide Printed, ReplyAt, OnTheWire;
    assert Printed([AUTH, secret]) + [] == Printed([AUTH, secret]);
  }

  /** For every secret and every peer, the wire carries AUTH with that very secret and perhaps
      PING, or nothing at all; PING is sent only after `+OK`. */
  lemma NothingElseOnTheWire(secret: Bytes, incoming: Bytes, stalls: bool)
    ensures ParseAll(Dialogue(secret, incoming, stalls).1) ==
            Some(if Injects(secret) then []
                 else if OnTheWire(Line(PLUS, OKAY)) <= incoming then [[AUTH, secret], [PING]]
                 else [[AUTH, secret]])
  {
    WhatIsWritten(secret, incoming, stalls);
    OneMoreCommand([AUTH, secret], []);
    OneMoreCommand([AUTH, secret], Printed([PING]));
    OneMoreCommand([PING], []);
    hide Printed, Dialogue, OnTheWire, ParseCommand;
    assert ParseAll([]) == Some([]);
    assert Printed([PING]) + [] == Printed([PING]) && Printed([AUTH, secret]) + [] == Printed([AUTH, secret]);
    assert [[PING]] + [] == [[PING]] && [[AUTH, secret]] + [] == [[AUTH, secret]];
    assert [[AUTH, secret]] + [[PING]] == [[AUTH, secret], [PING]];
    assert ParseAll(Printed([PING])) == Some([[PING]]);
    assert ParseAll(Printed([AUTH, secret])) == Some([[AUTH, secret]]);
  }

  /** Ready takes the bytes of `+OK` and `+PONG`, each ended by carriage return and line feed. */
  lemma ReadyBytes(secret: Bytes, incoming: Bytes, stalls: bool)
    ensures Dialogue(secret, incoming, stalls).0 == Ready <==>
            13 !in secret && 10 !in secret && [43, 79, 75, 13, 10] + [43, 80, 79, 78, 71, 13, 10] <= incoming
  {
    ReadyExactlyWhen(secret, incoming, stalls);
    assert OnTheWire(Line(PLUS, OKAY)) == [43, 79, 75, 13, 10];
    assert OnTheWire(Line(PLUS, PONG)) == [43, 80, 79, 78, 71, 13, 10];
  }

  /** The outcomes by the replies: an error reply to AUTH is a rejected secret unless Redis is
      loading; a peer that closes is a failed connection and one that stalls a timeout, at either
      reply; everything else is unexpected. */
  lemma OutcomesAre(secret: Bytes, incoming: Bytes, stalls: bool)
    ensures var (first, used) := ReplyAt(incoming, stalls);
            var second := ReplyAt(incoming[used..], stalls).0;
            var outcome := Dialogue(secret, incoming, stalls).0;
            var accepted := first == Got((43, [79, 75]));
            && (outcome == AuthFailed(false) <==> 13 in secret || 10 in secret)
            && (13 !in secret && 10 !in secret ==>
                  && (outcome == AuthFailed(true) <==> first.Got? && first.reply.0 == 45 && !([76, 79, 65, 68, 73, 78, 71] <= first.reply.1))
                  && (outcome == ConnectFailed <==> first == Incomplete || (accepted && second == Incomplete))
                  && (outcome == TimedOut <==> first == Expired || (accepted && second == Expired))
                  && (outcome == Ready <==> accepted && second == Got((43, [80, 79, 78, 71]))))
  {
    hide ReplyAt, Printed;
  }

  /** A reply that is cut short, anywhere, is never taken for one: the read runs out of bytes or of
      time. */
  lemma CutShort(r: Reply, n: nat, stalls: bool)
    requires WellFormed(r) && n < |OnTheWire(r)|
    ensures ReplyAt(OnTheWire(r)[..n], stalls).0 == if stalls then Expired else Incomplete
  {
    hide LineEnd, PyInt;
    match r {
      case Line(prefix, text) => { NoEndYet([prefix] + text, n); }
      case BulkString(data) => { CutBulk(data, n, stalls); }
      case NullBulk => { NoEndYet([DOLLAR, MINUS, 49], n); }
    }
  }

  lemma CutBulk(data: Bytes, n: nat, stalls: bool)
    requires n < |Bulk(data)|
    ensures ReplyAt(Bulk(data)[..n], stalls).0 == Short(stalls)
  {
    hide PyInt, Numeral, LineEnd;
    var line, tail := [DOLLAR] + Numeral(|data|), data + CRLF;
    assert NoLineEnd(line);
    assert Bulk(data) == line + CRLF + tail;
    var s := Bulk(data)[..n];
    if n < |line| + 2 {
      NoEndYet(line, n);
      assert s == (line + CRLF)[..n];
    } else {
      var some := tail[..n - |line| - 2];
      assert s == line + CRLF + some;
      FirstLine(line, some, stalls);
      PyIntOfNumeral(|data|);
      assert line[1..] == Numeral(|data|);
    }
  }

  /** A line without its whole ending has none. */
  lemma NoEndYet(line: Bytes, n: nat)
    requires NoLineEnd(line) && n < |line| + 2
    ensures LineEnd((line + CRLF)[..n]).None?
  {
    var s := (line + CRLF)[..n];
    assert forall k :: 0 <= k < n ==> s[k] == if k < |line| then line[k] else CRLF[k - |line|];
    assert NoLineEnd(s);
  }

  /** What is refused: an empty line or an array; and a length that is no integer. */
  lemma RefusalsAre(s: Bytes, stalls: bool)
    ensures var (read, used) := ReplyAt(s, stalls);
            var n := LineEnd(s);
            && (read == Violation <==> n.Some? && (n.value == 0 || s[0] == 42))
            && (read == BadInteger <==> n.Some? && n.value > 0 && s[0] == 36 && PyInt(s[1..n.value]).None?)
            && (read == Violation || read == BadInteger ==> used == n.value + 2)
  {
    hide PyInt, LineEnd;
  }

  /** Every byte that is ever sent: `*2`, `$4`, `AUTH`, the length of the secret, the secret; and,
      only after `+OK`, `*1`, `$4`, `PING`. */
  lemma WireIs(secret: Bytes, incoming: Bytes, stalls: bool)
    ensures Dialogue(secret, incoming, stalls).1 ==
            if 13 in secret || 10 in secret then []
            else
              [42, 50, 13, 10, 36, 52, 13, 10, 65, 85, 84, 72, 13, 10, 36] + Numeral(|secret|) + [13, 10] + secret + [13, 10] +
              (if [43, 79, 75, 13, 10] <= incoming then [42, 49, 13, 10, 36, 52, 13, 10, 80, 73, 78, 71, 13, 10] else [])
  {
    WhatIsWritten(secret, incoming, stalls);
    AuthBytes(secret);
    PingBytes();
    assert OnTheWire(Line(PLUS, OKAY)) == [43, 79, 75, 13, 10];
    hide Dialogue, Printed, Numeral, OnTheWire;
  }

  lemma SmallNumerals()
    ensures Numeral(1) == [49] && Numeral(2) == [50] && Numeral(4) == [52]
  {
    assert Digits(1) == [1] && Digits(2) == [2] && Digits(4) == [4];
  }

  lemma AuthBytes(secret: Bytes)
    ensures Printed([AUTH, secret]) ==
            [42, 50, 13, 10, 36, 52, 13, 10, 65, 85, 84, 72, 13, 10, 36] + Numeral(|secret|) + [13, 10] + secret + [13, 10]
  {
    SmallNumerals();
    hide Numeral;
    BulksOfTwo(AUTH, secret);
    assert Bulk(AUTH) == [36, 52, 13, 10, 65, 85, 84, 72, 13, 10];
    assert Bulk(secret) == [36] + Numeral(|secret|) + [13, 10] + secret + [13, 10];
  }

  lemma BulksOfOne(a: Bytes)
    ensures Bulks([a]) == Bulk(a)
  {
    hide Bulk;
    assert [a][1..] == [];
    assert Bulks([a]) == Bulk(a) + Bulks([]);
  }

  lemma BulksOfTwo(a: Bytes, b: Bytes)
    ensures Bulks([a, b]) == Bulk(a) + Bulk(b)
  {
    hide Bulk;
    assert [a, b][1..] == [b];
    BulksOfOne(b);
  }

  lemma PingBytes()
    ensures Printed([PING]) == [42, 49, 13, 10, 36, 52, 13, 10, 80, 73, 78, 71, 13, 10]
  {
    SmallNumerals();
    hide Numeral;
    BulksOfOne(PING);
    assert Bulk(PING) == [36, 52, 13, 10, 80, 73, 78, 71, 13, 10];
  }
}
