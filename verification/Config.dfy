/** The strict `.env.local` grammar: lines, the three loopback URLs, the synthetic secrets, and
    the connections derived from them. */
module Config {
  import opened Decimal
  import opened Text
  import opened Wrappers

  // ------------------------------------------------------------------ splitting text

  /** Where `c` first occurs, or the end. */
  function First(s: string, c: char): (n: nat)
    ensures n <= |s| && (n < |s| ==> s[n] == c)
    ensures forall k :: 0 <= k < n ==> s[k] != c
  {
    if s == "" || s[0] == c then 0 else 1 + First(s[1..], c)
  }

  /** Where `c` last occurs, or the end. */
  function Last(s: string, c: char): (n: nat)
    ensures n <= |s| && (n < |s| ==> s[n] == c)
    ensures forall k :: n < k < |s| ==> s[k] != c
    ensures n == |s| ==> c !in s
  {
    if s == "" || s[|s| - 1] == c then (if s == "" then 0 else |s| - 1)
    else
      var n := Last(s[..|s| - 1], c);
      if n == |s| - 1 then |s| else n
  }

  /** `text.split("\n")`. */
  function Lines(text: string): seq<string> {
    var n := First(text, '\n');
    if n == |text| then [text] else [text[..n]] + Lines(text[n + 1..])
  }

  lemma FirstIs(a: string, c: char, b: string)
    requires c !in a
    ensures First(a + [c] + b, c) == |a| && First(a, c) == |a|
  {
    var s := a + [c] + b;
    assert s[|a|] == c;
    assert forall k :: 0 <= k < |a| ==> s[k] == a[k];
  }

  lemma {:induction false} LastIs(a: string, c: char, b: string)
    requires c !in b
    ensures Last(a + [c] + b, c) == |a|
    decreases |b|
  {
    var s := a + [c] + b;
    if b == "" {
      assert s[|a|] == c;
    } else {
      LastIs(a, c, b[..|b| - 1]);
      assert s[..|s| - 1] == a + [c] + b[..|b| - 1] && s[|s| - 1] == b[|b| - 1];
    }
  }

  lemma OneMoreLine(a: string, b: string)
    requires '\n' !in a
    ensures Lines(a + "\n" + b) == [a] + Lines(b)
  {
    FirstIs(a, '\n', b);
    assert a + ['\n'] + b == a + "\n" + b;
    assert (a + "\n" + b)[..|a|] == a && (a + "\n" + b)[|a| + 1..] == b;
  }

  // ------------------------------------------------------------------ fields and lines

  datatype Field = Mode | DatabaseUrl | RedisUrl | GrafanaUrl | GrafanaAdminPassword

  function Name(f: Field): string {
    match f
    case Mode => "MODE"
    case DatabaseUrl => "DATABASE_URL"
    case RedisUrl => "REDIS_URL"
    case GrafanaUrl => "GRAFANA_URL"
    case GrafanaAdminPassword => "GRAFANA_ADMIN_PASSWORD"
  }

  predicate Lifecycle(key: string) {
    key == Name(Mode) || key == Name(DatabaseUrl) || key == Name(RedisUrl) || key == Name(GrafanaUrl) || key == Name(GrafanaAdminPassword)
  }

  predicate Upper(c: char) { 'A' <= c <= 'Z' }

  predicate Numeric(c: char) { '0' <= c <= '9' }

  predicate KeyText(s: string) {
    s != "" && Upper(s[0]) && forall k :: 0 <= k < |s| ==> Upper(s[k]) || Numeric(s[k]) || s[k] == '_'
  }

  datatype Entry = Skipped | Malformed | Assigned(key: string, value: string)

  predicate Ignored(line: string) { Strip(line) == "" || "#" <= line }

  function EntryOf(line: string): Entry {
    var n := First(line, '=');
    if Ignored(line) then Skipped
    else if n == |line| || !KeyText(line[..n]) then Malformed
    else Assigned(line[..n], line[n + 1..])
  }

  /** What a rejected file is blamed on: a line number, a field, or two fields with one port. */
  datatype Blame = AtLine(number: nat) | OnKey(key: string) | OnPorts(a: Field, b: Field)

  /** PlainValueError is what the library raises and the parser does not catch. */
  datatype ConfigError = InvalidMode | InvalidConfig(blame: Blame) | PlainValueError

  /** `line.partition("=")[2]`. */
  function AfterEquals(line: string): string {
    var n := First(line, '=');
    if n == |line| then "" else line[n + 1..]
  }

  /** The values of the lines that start with `MODE=`. */
  function ModeValues(lines: seq<string>): seq<string> {
    if lines == [] then []
    else
      var last := lines[|lines| - 1];
      ModeValues(lines[..|lines| - 1]) + (if !Ignored(last) && "MODE=" <= last then [AfterEquals(last)] else [])
  }

  /** Every assignment; a lifecycle field may occur once, anything else is kept and not read. */
  function Scan(lines: seq<string>): (r: Result<map<string, string>, ConfigError>)
    ensures r.Failure? ==> r.error.InvalidConfig?
  {
    if lines == [] then Success(map[])
    else
      var prior, entry := Scan(lines[..|lines| - 1]), EntryOf(lines[|lines| - 1]);
      if prior.Failure? || entry.Skipped? then prior
      else if entry.Malformed? then Failure(InvalidConfig(AtLine(|lines|)))
      else if Lifecycle(entry.key) && entry.key in prior.value then Failure(InvalidConfig(OnKey(entry.key)))
      else Success(prior.value[entry.key := entry.value])
  }

  method ValidateMode(text: string) returns (ok: bool)
    ensures ok <==> ModeValues(Lines(text)) == ["local"]
  {
    var lines := Lines(text);
    var values: seq<string> := [];
    for i := 0 to |lines|
      invariant values == ModeValues(lines[..i])
    {
      var line := lines[i];
      assert lines[..i + 1][..i] == lines[..i];
      if Ignored(line) { continue; }
      if "MODE=" <= line {
        values := values + [AfterEquals(line)];
      }
    }
    assert lines[..|lines|] == lines;
    if values == [] { return false; }
    if |values| > 1 { return false; }
    ok := values[0] == "local";
    assert values == [values[0]];
  }

  method ParseAssignments(text: string) returns (r: Result<map<string, string>, ConfigError>)
    ensures r == Scan(Lines(text))
  {
    hide Lines, EntryOf, Lifecycle;
    var lines := Lines(text);
    var assignments: map<string, string> := map[];
    var seen: set<string> := {};
    for i := 0 to |lines|
      invariant Scan(lines[..i]) == Success(assignments)
      invariant forall key :: key in seen <==> key in assignments && Lifecycle(key)
    {
      assert lines[..i + 1][..i] == lines[..i];
      var entry := EntryOf(lines[i]);
      if entry.Malformed? {
        ScanStops(lines, i + 1);
        return Failure(InvalidConfig(AtLine(i + 1)));
      }
      if entry.Assigned? {
        if Lifecycle(entry.key) {
          if entry.key in seen {
            ScanStops(lines, i + 1);
            return Failure(InvalidConfig(OnKey(entry.key)));
          }
          seen := seen + {entry.key};
        }
        assignments := assignments[entry.key := entry.value];
      }
    }
    assert lines[..|lines|] == lines;
    r := Success(assignments);
  }

  lemma {:induction false} ScanStops(lines: seq<string>, i: nat)
    requires i <= |lines| && Scan(lines[..i]).Failure?
    ensures Scan(lines) == Scan(lines[..i])
    decreases |lines|
  {
    if i == |lines| {
      assert lines[..i] == lines;
    } else {
      assert lines[..|lines| - 1][..i] == lines[..i];
      ScanStops(lines[..|lines| - 1], i);
    }
  }

  function OccurrencesOf(lines: seq<string>, key: string): nat {
    if lines == [] then 0
    else
      var entry := EntryOf(lines[|lines| - 1]);
      OccurrencesOf(lines[..|lines| - 1], key) + (if entry.Assigned? && entry.key == key then 1 else 0)
  }

  /** A file scans exactly if no line is malformed and no lifecycle field occurs twice; what is
      recorded then is each key that occurs. */
  lemma {:induction false} ScansExactlyWhen(lines: seq<string>)
    ensures Scan(lines).Success? <==>
            (forall k :: 0 <= k < |lines| ==> !EntryOf(lines[k]).Malformed?) && (forall key :: Lifecycle(key) ==> OccurrencesOf(lines, key) <= 1)
    ensures Scan(lines).Success? ==> forall key :: key in Scan(lines).value <==> OccurrencesOf(lines, key) > 0
  {
    hide EntryOf, Lifecycle;
    if lines != [] {
      var init, last := lines[..|lines| - 1], lines[|lines| - 1];
      ScansExactlyWhen(init);
      assert forall k :: 0 <= k < |init| ==> init[k] == lines[k];
      assert (forall k :: 0 <= k < |lines| ==> !EntryOf(lines[k]).Malformed?) <==>
             (forall k :: 0 <= k < |init| ==> !EntryOf(init[k]).Malformed?) && !EntryOf(last).Malformed?;
      assert forall key :: OccurrencesOf(init, key) <= OccurrencesOf(lines, key);
    }
  }

  // ------------------------------------------------------------------ URLs

  const LOOPBACK := "127.0.0.1"

  /** Letters, digits, `_`, `-` and `.`: none of the URI delimiters of section 2.2 of RFC 3986,
      and no percent sign. */
  predicate WordChar(c: char) { 'a' <= c <= 'z' || 'A' <= c <= 'Z' || Numeric(c) || c == '_' || c == '-' || c == '.' }

  predicate Word(s: string) { forall k :: 0 <= k < |s| ==> WordChar(s[k]) }

  predicate Identifier(s: string) { 1 <= |s| <= 63 && Word(s) && s[0] != '.' && s[0] != '-' }

  const SECRET_PREFIX := "tm_local_"

  predicate Secret(s: string) {
    SECRET_PREFIX <= s && 41 <= |s| <= 105 && forall k :: 9 <= k < |s| ==> WordChar(s[k]) && s[k] != '.'
  }

  predicate Unsafe(c: char) { c < '!' || c == '\"' || c == '\'' || c == '\\' || c as int == 0x7f }

  /** What an authority holds; an empty port counts as none. */
  datatype Authority = Authority(user: Option<string>, password: Option<string>, host: string, port: Option<string>)

  datatype Url = Url(netloc: string, path: string, query: string, fragment: string)

  function UpTo(s: string, c: char): string { s[..First(s, c)] }

  function Beyond(s: string, c: char): string { if First(s, c) == |s| then "" else s[First(s, c) + 1..] }

  function Min(a: nat, b: nat): nat { if a <= b then a else b }

  /** What follows `scheme://`, taken apart as section 3.2 of RFC 3986 says: the authority ends at the
      first slash, question mark or hash. */
  function SplitUrl(rest: string): Url {
    var n := Min(First(rest, '/'), Min(First(rest, '?'), First(rest, '#')));
    var tail := rest[n..];
    Url(rest[..n], UpTo(UpTo(tail, '#'), '?'), Beyond(UpTo(tail, '#'), '?'), Beyond(tail, '#'))
  }

  /** `user:password@host:port`; a bracketed host ends at its bracket, and an empty port counts as
      none. */
  function SplitAuthority(netloc: string): Authority {
    var at := Last(netloc, '@');
    var none := at == |netloc|;
    var userinfo := if none then "" else netloc[..at];
    var hostinfo := if none then netloc else netloc[at + 1..];
    var bracketed := First(hostinfo, '[') < |hostinfo|;
    var host := if bracketed then UpTo(Beyond(hostinfo, '['), ']') else UpTo(hostinfo, ':');
    var port := Beyond(if bracketed then Beyond(Beyond(hostinfo, '['), ']') else hostinfo, ':');
    Authority(
      if none then None else Some(UpTo(userinfo, ':')),
      if none || First(userinfo, ':') == |userinfo| then None else Some(Beyond(userinfo, ':')),
      host, if port == "" then None else Some(port))
  }

  /** What the URL library knows: which authorities with both brackets hold an IP literal where
      one may stand, and compatibility normalisation. */
  datatype Library = Library(bracketsAccepted: string -> bool, nfkc: string -> string)

  predicate Ascii(s: string) { forall k :: 0 <= k < |s| ==> s[k] as int < 128 }

  function WithoutDelimiters(s: string): string {
    if s == "" then ""
    else (if s[0] == '@' || s[0] == ':' || s[0] == '#' || s[0] == '?' then [] else [s[0]]) + WithoutDelimiters(s[1..])
  }

  predicate HasDelimiter(s: string) { '/' in s || '?' in s || '#' in s || '@' in s || ':' in s }

  /** When the library refuses an authority with a plain ValueError: a bracket without its
      partner, brackets around anything but an IP literal, or a character outside ASCII that
      normalises to a delimiter. */
  predicate SplitRaises(lib: Library, netloc: string) {
    || ('[' in netloc && ']' !in netloc) || (']' in netloc && '[' !in netloc)
    || ('[' in netloc && ']' in netloc && !lib.bracketsAccepted(netloc))
    || (!Ascii(netloc) && var n := WithoutDelimiters(netloc); lib.nfkc(n) != n && HasDelimiter(lib.nfkc(n)))
  }

  predicate AllDigits(s: string) { s != "" && forall k :: 0 <= k < |s| ==> Numeric(s[k]) }

  function Number(s: string): nat
    requires AllDigits(s)
  {
    Value(seq(|s|, k requires 0 <= k < |s| => s[k] as int - '0' as int))
  }

  function Numeral(n: nat): (s: string)
    ensures AllDigits(s)
  {
    var ds := Digits(n);
    seq(|ds|, k requires 0 <= k < |ds| => (ds[k] as int + '0' as int) as char)
  }

  lemma NumberOfNumeral(n: nat)
    ensures Number(Numeral(n)) == n && Word(Numeral(n))
  {
    ValueOfDigits(n);
    var s := Numeral(n);
    assert seq(|s|, k requires 0 <= k < |s| => s[k] as int - '0' as int) == Digits(n);
  }

  /** How many digits `int` reads from text by default. */
  const MAX_DIGITS := 4300

  predicate GoodPort(port: nat) { 1 <= port <= 65535 }

  /** The explicit port on the loopback literal. */
  function LoopbackPort(a: Authority): Option<nat> {
    if a.host != LOOPBACK || a.port.None? || !AllDigits(a.port.value) || |a.port.value| > MAX_DIGITS || !GoodPort(Number(a.port.value)) then None
    else Some(Number(a.port.value))
  }

  function Hex(c: char): Option<nat> {
    if Numeric(c) then Some(c as int - '0' as int)
    else if 'a' <= c <= 'f' then Some(c as int - 'a' as int + 10)
    else if 'A' <= c <= 'F' then Some(c as int - 'A' as int + 10)
    else None
  }

  /** Percent decoding (section 2.1 of RFC 3986); a percent sign without two hex digits stays.
      None when an octet outside ASCII is decoded: no such text is a secret. */
  function PercentDecode(s: string): Option<string> {
    if s == "" then Some("")
    else if s[0] == '%' && |s| >= 3 && Hex(s[1]).Some? && Hex(s[2]).Some? then
      var octet := Hex(s[1]).value * 16 + Hex(s[2]).value;
      var others := PercentDecode(s[3..]);
      if octet >= 128 || others.None? then None else Some([octet as char] + others.value)
    else
      var others := PercentDecode(s[1..]);
      if others.None? then None else Some([s[0]] + others.value)
  }

  function DecodeSecret(raw: Option<string>): Option<string> {
    if raw.None? || PercentDecode(raw.value).None? || !Secret(PercentDecode(raw.value).value) then None
    else PercentDecode(raw.value)
  }

  /** The text after a scheme that must come first, if no character is unsafe. */
  function AfterScheme(value: string, scheme: string): Option<string> {
    if (exists k :: 0 <= k < |value| && Unsafe(value[k])) || !(scheme <= value) then None else Some(value[|scheme|..])
  }

  /** Exactly one non-empty path segment, and neither query nor fragment. */
  function Segment(u: Url): Option<string> {
    if u.query != "" || u.fragment != "" || u.path == "" || u.path[0] != '/' || |u.path| == 1 || '/' in u.path[1..] then None
    else Some(u.path[1..])
  }

  const POSTGRES := "postgresql://"
  const REDIS := "redis://"
  const HTTP := "http://"

  datatype DatabaseFacts = DatabaseFacts(user: string, secret: string, port: nat, database: string)

  datatype RedisFacts = RedisFacts(secret: string, port: nat, db: nat)

  /** Refused is an InvalidConfigError that names the field; Crashes a plain ValueError. */
  datatype Parsed<+T> = Accepted(facts: T) | Refused | Crashes

  function Open(lib: Library, value: string, scheme: string): Parsed<(Url, Authority)> {
    var rest := AfterScheme(value, scheme);
    if rest.None? then Refused
    else if SplitRaises(lib, SplitUrl(rest.value).netloc) then Crashes
    else Accepted((SplitUrl(rest.value), SplitAuthority(SplitUrl(rest.value).netloc)))
  }

  function ParseDatabaseUrl(lib: Library, value: string): Parsed<DatabaseFacts> {
    match Open(lib, value, POSTGRES)
    case Refused => Refused
    case Crashes => Crashes
    case Accepted((u, a)) =>
      var port, secret, database := LoopbackPort(a), DecodeSecret(a.password), Segment(u);
      if port.None? || a.user.None? || !Identifier(a.user.value) || secret.None? || database.None? || !Identifier(database.value) then Refused
      else Accepted(DatabaseFacts(a.user.value, secret.value, port.value, database.value))
  }

  const DEFAULT_USER := "default"

  /** Everything but the number: secret, port, and the digits of the database. */
  function RedisParts(lib: Library, value: string): Parsed<(string, nat, string)> {
    match Open(lib, value, REDIS)
    case Refused => Refused
    case Crashes => Crashes
    case Accepted((u, a)) =>
      var port, secret, db := LoopbackPort(a), DecodeSecret(a.password), Segment(u);
      if port.None? || a.user != Some(DEFAULT_USER) || secret.None? || db.None? || !AllDigits(db.value) then Refused
      else Accepted((secret.value, port.value, db.value))
  }

  function ParseRedisUrl(lib: Library, value: string): Parsed<RedisFacts> {
    match RedisParts(lib, value)
    case Refused => Refused
    case Crashes => Crashes
    case Accepted((secret, port, digits)) =>
      if !AllDigits(digits) then Refused
      else if |digits| > MAX_DIGITS then Crashes
      else Accepted(RedisFacts(secret, port, Number(digits)))
  }

  function ParseGrafanaUrl(lib: Library, value: string): Parsed<nat> {
    match Open(lib, value, HTTP)
    case Refused => Refused
    case Crashes => Crashes
    case Accepted((u, a)) =>
      if a.user.Some? || (u.path != "" && u.path != "/") || u.query != "" || u.fragment != "" || LoopbackPort(a).None? then Refused
      else Accepted(LoopbackPort(a).value)
  }

  // ------------------------------------------------------------------ the configuration

  datatype Configuration = Configuration(database: DatabaseFacts, redis: RedisFacts, grafanaPort: nat, adminPassword: string)

  function Required(assignments: map<string, string>, f: Field): Option<string> {
    if Name(f) !in assignments || assignments[Name(f)] == "" then None else Some(assignments[Name(f)])
  }

  function Blamed<T>(f: Field): Result<T, ConfigError> { Failure(InvalidConfig(OnKey(Name(f)))) }

  function Failed<T, U>(p: Parsed<T>, f: Field): Result<U, ConfigError>
    requires !p.Accepted?
  {
    if p.Crashes? then Failure(PlainValueError) else Blamed(f)
  }

  function Build(lib: Library, assignments: map<string, string>): Result<Configuration, ConfigError> {
    var db, redis, grafana, admin :=
      Required(assignments, DatabaseUrl), Required(assignments, RedisUrl), Required(assignments, GrafanaUrl), Required(assignments, GrafanaAdminPassword);
    if db.None? then Blamed(DatabaseUrl)
    else if redis.None? then Blamed(RedisUrl)
    else if grafana.None? then Blamed(GrafanaUrl)
    else if admin.None? then Blamed(GrafanaAdminPassword)
    else
      var d, r, g := ParseDatabaseUrl(lib, db.value), ParseRedisUrl(lib, redis.value), ParseGrafanaUrl(lib, grafana.value);
      if !d.Accepted? then Failed(d, DatabaseUrl)
      else if !r.Accepted? then Failed(r, RedisUrl)
      else if !g.Accepted? then Failed(g, GrafanaUrl)
      else if !Secret(admin.value) then Blamed(GrafanaAdminPassword)
      else if d.facts.port == r.facts.port then Failure(InvalidConfig(OnPorts(DatabaseUrl, RedisUrl)))
      else if d.facts.port == g.facts then Failure(InvalidConfig(OnPorts(DatabaseUrl, GrafanaUrl)))
      else if r.facts.port == g.facts then Failure(InvalidConfig(OnPorts(RedisUrl, GrafanaUrl)))
      else Success(Configuration(d.facts, r.facts, g.facts, admin.value))
  }

  function Parse(lib: Library, text: string): Result<Configuration, ConfigError> {
    if ModeValues(Lines(text)) != ["local"] then Failure(InvalidMode)
    else
      var assignments := Scan(Lines(text));
      if assignments.Failure? then Failure(assignments.error) else Build(lib, assignments.value)
  }

  method ParseLocalEnvironment(lib: Library, text: string) returns (r: Result<Configuration, ConfigError>)
    ensures r == Parse(lib, text)
  {
    hide Lines, Scan, ModeValues, Build;
    var ok := ValidateMode(text);
    if !ok { return Failure(InvalidMode); }
    var assignments := ParseAssignments(text);
    if assignments.Failure? { return Failure(assignments.error); }
    r := Build(lib, assignments.value);
  }

  /** The library raises on this URL: nothing before it was refused. */
  predicate UrlRaises(lib: Library, value: string, scheme: string) {
    AfterScheme(value, scheme).Some? && SplitRaises(lib, SplitUrl(AfterScheme(value, scheme).value).netloc)
  }

  /** A Redis URL that is acceptable but for a database number `int` will not read. */
  predicate NumberTooLong(lib: Library, value: string) {
    RedisParts(lib, value).Accepted? && |RedisParts(lib, value).facts.2| > MAX_DIGITS
  }

  /** What a field is given in lines that scan; empty without. */
  function TextOf(lines: seq<string>, f: Field): string {
    if Scan(lines).Success? && Name(f) in Scan(lines).value then Scan(lines).value[Name(f)] else ""
  }

  /** The mode and the lines are in order and all four fields have values. */
  predicate ReachesUrls(text: string) {
    && ModeValues(Lines(text)) == ["local"] && Scan(Lines(text)).Success?
    && forall f :: f != Mode ==> TextOf(Lines(text), f) != ""
  }

  /** The library raises on the first URL that is not in order, or that URL is Redis's with too
      long a number. */
  predicate UrlsRaise(lib: Library, db: string, redis: string, grafana: string) {
    || UrlRaises(lib, db, POSTGRES)
    || (ParseDatabaseUrl(lib, db).Accepted? &&
        (UrlRaises(lib, redis, REDIS) || NumberTooLong(lib, redis) || (ParseRedisUrl(lib, redis).Accepted? && UrlRaises(lib, grafana, HTTP))))
  }

  /** The parser lets a plain ValueError through exactly if the URLs are reached and raise. */
  lemma RaisesExactlyWhen(lib: Library, text: string)
    ensures Parse(lib, text) == Failure(PlainValueError) <==>
            ReachesUrls(text) &&
            UrlsRaise(lib, TextOf(Lines(text), DatabaseUrl), TextOf(Lines(text), RedisUrl), TextOf(Lines(text), GrafanaUrl))
  {
    hide Lines, Scan, ModeValues, SplitUrl, SplitAuthority, SplitRaises, Identifier, Secret, AfterScheme, Segment, Number, LoopbackPort, DecodeSecret, Name;
    if ModeValues(Lines(text)) == ["local"] && Scan(Lines(text)).Success? {
      var m := Scan(Lines(text)).value;
      FourFields(m);
      assert forall f :: TextOf(Lines(text), f) != "" <==> Required(m, f).Some?;
    }
  }

  lemma FourFields(m: map<string, string>)
    ensures (forall f :: f != Mode ==> Required(m, f).Some?) <==>
            Required(m, DatabaseUrl).Some? && Required(m, RedisUrl).Some? && Required(m, GrafanaUrl).Some? && Required(m, GrafanaAdminPassword).Some?
  {
    forall f | f != Mode && Required(m, DatabaseUrl).Some? && Required(m, RedisUrl).Some? && Required(m, GrafanaUrl).Some? && Required(m, GrafanaAdminPassword).Some?
      ensures Required(m, f).Some?
    {
      match f case Mode => case DatabaseUrl => case RedisUrl => case GrafanaUrl => case GrafanaAdminPassword =>
    }
  }

  /** What every accepted configuration satisfies. */
  predicate WellFormed(c: Configuration) {
    && Identifier(c.database.user) && Secret(c.database.secret) && Identifier(c.database.database)
    && Secret(c.redis.secret) && Secret(c.adminPassword)
    && GoodPort(c.database.port) && GoodPort(c.redis.port) && GoodPort(c.grafanaPort) && |Numeral(c.redis.db)| <= MAX_DIGITS
    && c.database.port != c.redis.port && c.database.port != c.grafanaPort && c.redis.port != c.grafanaPort
  }

  lemma AcceptedFacts(lib: Library, value: string)
    ensures var d := ParseDatabaseUrl(lib, value); d.Accepted? ==>
              Identifier(d.facts.user) && Secret(d.facts.secret) && Identifier(d.facts.database) && GoodPort(d.facts.port)
    ensures var r := ParseRedisUrl(lib, value); r.Accepted? ==> Secret(r.facts.secret) && GoodPort(r.facts.port) && |Numeral(r.facts.db)| <= MAX_DIGITS
    ensures var g := ParseGrafanaUrl(lib, value); g.Accepted? ==> GoodPort(g.facts)
  {
    hide Open, PercentDecode, Identifier, Secret, Segment, Number, Numeral;
    var r := RedisParts(lib, value);
    if r.Accepted? { NumeralIsShortest(r.facts.2); }
  }

  lemma AcceptedIsWellFormed(lib: Library, text: string)
    ensures Parse(lib, text).Success? ==> WellFormed(Parse(lib, text).value)
    ensures Parse(lib, text) == Failure(InvalidMode) <==> ModeValues(Lines(text)) != ["local"]
  {
    hide Lines, Scan, ModeValues, ParseDatabaseUrl, ParseRedisUrl, ParseGrafanaUrl, Identifier, Secret, Numeral;
    if Scan(Lines(text)).Success? {
      var m := Scan(Lines(text)).value;
      if Required(m, DatabaseUrl).Some? { AcceptedFacts(lib, Required(m, DatabaseUrl).value); }
      if Required(m, RedisUrl).Some? { AcceptedFacts(lib, Required(m, RedisUrl).value); }
      if Required(m, GrafanaUrl).Some? { AcceptedFacts(lib, Required(m, GrafanaUrl).value); }
    }
  }

  lemma NumeralIsShortest(s: string)
    requires AllDigits(s)
    ensures |Numeral(Number(s))| <= |s|
  {
    DigitsAreShortest(seq(|s|, k requires 0 <= k < |s| => s[k] as int - '0' as int));
  }

  // ------------------------------------------------------------------ printing

  function Netloc(user: string, secret: string, host: string, port: nat): string {
    user + ":" + secret + "@" + host + ":" + Numeral(port)
  }

  function Authorized(user: string, secret: string, host: string, port: nat, path: string): string {
    Netloc(user, secret, host, port) + ['/'] + path
  }

  function DatabaseText(d: DatabaseFacts): string { POSTGRES + Authorized(d.user, d.secret, LOOPBACK, d.port, d.database) }

  function RedisText(r: RedisFacts): string { REDIS + Authorized(DEFAULT_USER, r.secret, LOOPBACK, r.port, Numeral(r.db)) }

  function GrafanaText(port: nat): string { HTTP + LOOPBACK + ":" + Numeral(port) }

  function Assignment(f: Field, value: string): string { Name(f) + "=" + value }

  /** One line per lifecycle field, in a fixed order and the plainest form. */
  const Fields := [Mode, DatabaseUrl, RedisUrl, GrafanaUrl, GrafanaAdminPassword]

  function FieldLines(fs: seq<Field>, values: Field -> string): seq<string> {
    if fs == [] then [] else FieldLines(fs[..|fs| - 1], values) + [Assignment(fs[|fs| - 1], values(fs[|fs| - 1]))]
  }

  function Join(lines: seq<string>): string
    requires lines != []
  {
    if |lines| == 1 then lines[0] else lines[0] + "\n" + Join(lines[1..])
  }

  function ValuesOf(c: Configuration): Field -> string {
    (f: Field) => match f
         case Mode => "local"
         case DatabaseUrl => DatabaseText(c.database)
         case RedisUrl => RedisText(c.redis)
         case GrafanaUrl => GrafanaText(c.grafanaPort)
         case GrafanaAdminPassword => c.adminPassword
  }

  function Print(c: Configuration): string { Join(FieldLines(Fields, ValuesOf(c))) }

  lemma WordExcludes(s: string, c: char)
    requires Word(s) && !WordChar(c)
    ensures c !in s
  {
  }

  lemma SecretIsWord(s: string)
    requires Secret(s)
    ensures Word(s)
  {
    assert forall k :: 0 <= k < 9 ==> s[k] == SECRET_PREFIX[k] && WordChar(SECRET_PREFIX[k]);
  }

  lemma LoopbackIsWord()
    ensures Word(LOOPBACK) && Word(DEFAULT_USER)
  {
  }

  lemma {:induction false} WordDecodesToItself(s: string)
    requires Word(s)
    ensures PercentDecode(s) == Some(s)
  {
    if s != "" {
      WordDecodesToItself(s[1..]);
      assert [s[0]] + s[1..] == s;
    }
  }

  lemma Partitions(a: string, c: char, b: string)
    requires c !in a
    ensures UpTo(a + [c] + b, c) == a && Beyond(a + [c] + b, c) == b && First(a + [c] + b, c) < |a + [c] + b|
    ensures UpTo(a, c) == a && Beyond(a, c) == "" && First(a, c) == |a|
  {
    FirstIs(a, c, b);
    assert (a + [c] + b)[..|a|] == a && (a + [c] + b)[|a| + 1..] == b;
  }

  /** `user:secret@host:port`, taken apart at the last `@` and the first colons. */
  lemma AuthorityParts(user: string, secret: string, host: string, port: string)
    requires ':' !in user && ':' !in host && '@' !in host + [':'] + port && port != ""
    requires forall c :: c in user + [':'] + secret + ['@'] + (host + [':'] + port) ==> c != '[' && c != ']'
    ensures SplitAuthority(user + [':'] + secret + ['@'] + (host + [':'] + port)) == Authority(Some(user), Some(secret), host, Some(port))
  {
    hide First, Last, UpTo, Beyond;
    var userinfo, hostinfo := user + [':'] + secret, host + [':'] + port;
    AtLast(userinfo, hostinfo);
    NoBracket(userinfo, hostinfo);
    Partitions(user, ':', secret);
    Partitions(host, ':', port);
  }

  lemma AtLast(a: string, b: string)
    requires '@' !in b
    ensures var s := a + ['@'] + b; Last(s, '@') == |a| < |s| && s[..|a|] == a && s[|a| + 1..] == b
  {
    LastIs(a, '@', b);
  }

  lemma NoBracket(a: string, b: string)
    requires forall c :: c in a + ['@'] + b ==> c != '[' && c != ']'
    ensures First(b, '[') == |b|
  {
    var s := a + ['@'] + b;
    if k :| 0 <= k < |b| && b[k] == '[' {
      assert s[|a| + 1 + k] == '[' && '[' in s;
    }
    assert '[' !in b;
  }

  /** What a secret in a URL may be written with. */
  predicate Encoded(s: string) { forall k :: 0 <= k < |s| ==> WordChar(s[k]) || s[k] == '%' }

  lemma WordIsEncoded(s: string)
    requires Word(s)
    ensures Encoded(s)
  {
  }

  lemma NetlocSplits(user: string, secret: string, host: string, port: nat)
    requires Word(user) && Encoded(secret) && Word(host)
    ensures SplitAuthority(Netloc(user, secret, host, port)) == Authority(Some(user), Some(secret), host, Some(Numeral(port)))
    ensures forall c :: c in Netloc(user, secret, host, port) ==> WordChar(c) || c == ':' || c == '@' || c == '%'
  {
    NumberOfNumeral(port);
    hide Numeral, SplitAuthority;
    var digits := Numeral(port);
    var netloc := user + [':'] + secret + ['@'] + (host + [':'] + digits);
    assert Netloc(user, secret, host, port) == netloc;
    assert forall c :: c in user || c in host || c in digits ==> WordChar(c);
    assert forall c :: c in secret ==> WordChar(c) || c == '%';
    assert forall c :: c in netloc ==> c in user || c in secret || c in host || c in digits || c == ':' || c == '@';
    assert forall c :: c in host + [':'] + digits ==> c in host || c in digits || c == ':';
    hide Word, Encoded, Netloc;
    assert !WordChar(':') && !WordChar('@') && !WordChar('[') && !WordChar(']');
    hide WordChar;
    AuthorityParts(user, secret, host, digits);
  }

  /** An authority followed by a path, with nothing after it. */
  lemma UrlParts(netloc: string, path: string)
    requires forall c :: c in netloc || c in path ==> c != '/' && c != '?' && c != '#'
    ensures SplitUrl(netloc + ['/'] + path) == Url(netloc, ['/'] + path, "", "")
  {
    hide First, UpTo, Beyond;
    var rest, tail := netloc + ['/'] + path, ['/'] + path;
    assert '?' !in rest && '#' !in rest && '?' !in tail && '#' !in tail;
    FirstIs(netloc, '/', path);
    Partitions(rest, '?', "");
    Partitions(rest, '#', "");
    Partitions(tail, '?', "");
    Partitions(tail, '#', "");
    assert rest[..|netloc|] == netloc && rest[|netloc|..] == tail;
  }

  /** Nothing in a printed URL can be mistaken for a delimiter, so splitting it gives back its
      parts exactly, for any host. */
  lemma AuthorizedSplits(user: string, secret: string, host: string, port: nat, path: string)
    requires Word(user) && Encoded(secret) && Word(host) && Word(path)
    ensures var u := SplitUrl(Authorized(user, secret, host, port, path));
            && u == Url(Netloc(user, secret, host, port), ['/'] + path, "", "")
            && SplitAuthority(u.netloc) == Authority(Some(user), Some(secret), host, Some(Numeral(port)))
  {
    hide Numeral, SplitAuthority, SplitUrl, Netloc;
    NetlocSplits(user, secret, host, port);
    assert forall c :: c in path ==> WordChar(c);
    UrlParts(Netloc(user, secret, host, port), path);
  }

  /** An authority of word characters and single delimiters is none the library refuses. */
  lemma PlainNetloc(lib: Library, netloc: string)
    requires forall c :: c in netloc ==> WordChar(c) || c == ':' || c == '@' || c == '%'
    ensures !SplitRaises(lib, netloc)
  {
    assert '[' !in netloc && ']' !in netloc;
    assert forall k :: 0 <= k < |netloc| ==> netloc[k] in netloc;
    assert Ascii(netloc);
  }

  lemma AuthorizedIsPlain(lib: Library, user: string, secret: string, host: string, port: nat, path: string)
    requires Word(user) && Encoded(secret) && Word(host) && Word(path)
    ensures !SplitRaises(lib, SplitUrl(Authorized(user, secret, host, port, path)).netloc)
  {
    hide Word, Encoded, Numeral, SplitUrl, SplitAuthority, SplitRaises, Netloc, Authorized, WordChar;
    AuthorizedSplits(user, secret, host, port, path);
    NetlocSplits(user, secret, host, port);
    PlainNetloc(lib, Netloc(user, secret, host, port));
  }

  /** The one path segment of a printed URL. */
  lemma PathSegment(netloc: string, path: string)
    requires Word(path) && path != ""
    ensures Segment(Url(netloc, ['/'] + path, "", "")) == Some(path)
  {
    WordExcludes(path, '/');
    assert (['/'] + path)[1..] == path;
  }

  predicate Safe(s: string) { forall k :: 0 <= k < |s| ==> !Unsafe(s[k]) }

  lemma WordIsSafe(s: string)
    requires Word(s)
    ensures Safe(s) && '\n' !in s
  {
  }

  lemma SchemesAreSafe()
    ensures Safe(POSTGRES) && Safe(REDIS) && Safe(HTTP) && Safe(LOOPBACK) && Safe(DEFAULT_USER)
  {
  }

  lemma AuthorizedIsSafe(user: string, secret: string, host: string, port: nat, path: string)
    requires Word(user) && Encoded(secret) && Word(host) && Word(path)
    ensures Safe(Authorized(user, secret, host, port, path))
  {
    NumberOfNumeral(port);
    WordIsSafe(user);
    assert Safe(secret);
    WordIsSafe(host);
    WordIsSafe(path);
    WordIsSafe(Numeral(port));
    hide Word, Encoded, Numeral;
  }

  lemma SchemeComesOff(scheme: string, rest: string)
    requires Safe(scheme) && Safe(rest)
    ensures AfterScheme(scheme + rest, scheme) == Some(rest) && Safe(scheme + rest)
  {
    assert (scheme + rest)[|scheme|..] == rest;
  }

  lemma PortReadsBack(port: nat, user: Option<string>, password: Option<string>)
    requires GoodPort(port)
    ensures LoopbackPort(Authority(user, password, LOOPBACK, Some(Numeral(port)))) == Some(port)
  {
    NumberOfNumeral(port);
    FewDigits(port, 5);
    assert Power(5) == 100000;
  }

  lemma SecretReadsBack(secret: string, raw: string)
    requires Secret(secret) && PercentDecode(raw) == Some(secret)
    ensures DecodeSecret(Some(raw)) == Some(secret)
  {
    hide Secret, PercentDecode;
  }

  /** A secret printed plainly. */
  lemma PlainSecret(secret: string)
    requires Secret(secret)
    ensures Word(secret) && Encoded(secret) && PercentDecode(secret) == Some(secret)
  {
    SecretIsWord(secret);
    WordIsEncoded(secret);
    WordDecodesToItself(secret);
  }

  /** A database URL whose secret is written as `raw`. */
  function DatabaseWritten(d: DatabaseFacts, raw: string): string { POSTGRES + Authorized(d.user, raw, LOOPBACK, d.port, d.database) }

  function RedisWritten(r: RedisFacts, raw: string): string { REDIS + Authorized(DEFAULT_USER, raw, LOOPBACK, r.port, Numeral(r.db)) }

  /** However its secret is written, as long as it decodes to it, a URL parses to the same facts. */
  lemma DatabaseReadsBack(lib: Library, d: DatabaseFacts, raw: string)
    requires Identifier(d.user) && Secret(d.secret) && Identifier(d.database) && GoodPort(d.port)
    requires Encoded(raw) && PercentDecode(raw) == Some(d.secret)
    ensures ParseDatabaseUrl(lib, DatabaseWritten(d, raw)) == Accepted(d) && Safe(DatabaseWritten(d, raw))
  {
    hide SplitRaises, Secret, Encoded, Safe, Authorized, SplitUrl, SplitAuthority, Netloc, PercentDecode, DecodeSecret, AfterScheme, LOOPBACK, POSTGRES, Numeral, Number, Word, Segment, LoopbackPort;
    LoopbackIsWord();
    SchemesAreSafe();
    assert Word(d.user) && Word(d.database) && d.database != "";
    hide Identifier;
    AuthorizedSplits(d.user, raw, LOOPBACK, d.port, d.database);
    AuthorizedIsPlain(lib, d.user, raw, LOOPBACK, d.port, d.database);
    AuthorizedIsSafe(d.user, raw, LOOPBACK, d.port, d.database);
    SchemeComesOff(POSTGRES, Authorized(d.user, raw, LOOPBACK, d.port, d.database));
    SecretReadsBack(d.secret, raw);
    PortReadsBack(d.port, Some(d.user), Some(raw));
    PathSegment(Netloc(d.user, raw, LOOPBACK, d.port), d.database);
  }

  lemma RedisReadsBack(lib: Library, r: RedisFacts, raw: string)
    requires Secret(r.secret) && GoodPort(r.port) && |Numeral(r.db)| <= MAX_DIGITS
    requires Encoded(raw) && PercentDecode(raw) == Some(r.secret)
    ensures ParseRedisUrl(lib, RedisWritten(r, raw)) == Accepted(r) && Safe(RedisWritten(r, raw))
  {
    hide SplitRaises, MAX_DIGITS, Secret, Encoded, Safe, Authorized, SplitUrl, SplitAuthority, Netloc, PercentDecode, DecodeSecret, AfterScheme, LOOPBACK, REDIS, Numeral, Number, Word, Segment, LoopbackPort, DEFAULT_USER;
    LoopbackIsWord();
    SchemesAreSafe();
    NumberOfNumeral(r.db);
    AuthorizedSplits(DEFAULT_USER, raw, LOOPBACK, r.port, Numeral(r.db));
    AuthorizedIsPlain(lib, DEFAULT_USER, raw, LOOPBACK, r.port, Numeral(r.db));
    AuthorizedIsSafe(DEFAULT_USER, raw, LOOPBACK, r.port, Numeral(r.db));
    SchemeComesOff(REDIS, Authorized(DEFAULT_USER, raw, LOOPBACK, r.port, Numeral(r.db)));
    SecretReadsBack(r.secret, raw);
    PortReadsBack(r.port, Some(DEFAULT_USER), Some(raw));
    PathSegment(Netloc(DEFAULT_USER, raw, LOOPBACK, r.port), Numeral(r.db));
  }

  lemma DatabaseRoundTrip(lib: Library, d: DatabaseFacts)
    requires Identifier(d.user) && Secret(d.secret) && Identifier(d.database) && GoodPort(d.port)
    ensures ParseDatabaseUrl(lib, DatabaseText(d)) == Accepted(d) && Safe(DatabaseText(d))
  {
    PlainSecret(d.secret);
    hide ParseDatabaseUrl, Secret, Identifier, Encoded, PercentDecode, Safe, Authorized;
    DatabaseReadsBack(lib, d, d.secret);
  }

  lemma RedisRoundTrip(lib: Library, r: RedisFacts)
    requires Secret(r.secret) && GoodPort(r.port) && |Numeral(r.db)| <= MAX_DIGITS
    ensures ParseRedisUrl(lib, RedisText(r)) == Accepted(r) && Safe(RedisText(r))
  {
    PlainSecret(r.secret);
    hide ParseRedisUrl, Secret, Encoded, PercentDecode, Safe, Authorized, Numeral;
    RedisReadsBack(lib, r, r.secret);
  }

  // ------------------------------------------------------------------ percent encoding

  /** How one character is written: as itself, or as a percent sign and the two digits of its
      number to base 16, each with letters of either case. */
  datatype Style = Plain | Percent(upper: bool, upperLow: bool)

  function HexDigit(n: nat, upper: bool): char
    requires n < 16
  {
    if n < 10 then ('0' as int + n) as char else ((if upper then 'A' else 'a') as int + (n - 10)) as char
  }

  function Written(s: string, how: seq<Style>): string
    requires |s| == |how|
  {
    if s == "" then ""
    else
      var others := Written(s[1..], how[1..]);
      if how[0].Plain? || s[0] as int >= 128 then [s[0]] + others
      else ['%', HexDigit(s[0] as int / 16, how[0].upper), HexDigit(s[0] as int % 16, how[0].upperLow)] + others
  }

  /** Only a percent sign that cannot be mistaken is written as itself. */
  predicate Fits(s: string, how: seq<Style>) {
    && |s| == |how|
    && (s != "" ==>
          && Fits(s[1..], how[1..]) && (how[0].Percent? ==> s[0] as int < 128)
          && (how[0].Plain? && s[0] == '%' ==>
                var others := Written(s[1..], how[1..]);
                |others| < 2 || Hex(others[0]).None? || Hex(others[1]).None?))
  }

  lemma HexReadsBack(n: nat, upper: bool)
    requires n < 16
    ensures Hex(HexDigit(n, upper)) == Some(n) && WordChar(HexDigit(n, upper))
  {
  }

  /** Whatever is written decodes to what it was. */
  lemma {:induction false} WrittenDecodes(s: string, how: seq<Style>)
    requires Fits(s, how)
    ensures PercentDecode(Written(s, how)) == Some(s)
  {
    if s != "" {
      var others, w := Written(s[1..], how[1..]), Written(s, how);
      WrittenDecodes(s[1..], how[1..]);
      if how[0].Plain? {
        assert w[0] == s[0] && w[1..] == others;
      } else {
        HexReadsBack(s[0] as int / 16, how[0].upper);
        HexReadsBack(s[0] as int % 16, how[0].upperLow);
        assert w[3..] == others;
      }
      assert [s[0]] + s[1..] == s;
    }
  }

  lemma HexIsWritten(c: char) returns (upper: bool)
    requires Hex(c).Some?
    ensures Hex(c).value < 16 && HexDigit(Hex(c).value, upper) == c
  {
    upper := 'A' <= c <= 'F';
  }

  lemma WriteOneMore(c: char, s: string, style: Style, how: seq<Style>)
    requires |s| == |how| && (style.Percent? ==> c as int < 128)
    ensures Written([c] + s, [style] + how) ==
            (if style.Plain? then [c] else ['%', HexDigit(c as int / 16, style.upper), HexDigit(c as int % 16, style.upperLow)]) + Written(s, how)
    ensures Fits(s, how) && (style.Plain? && c == '%' ==> |Written(s, how)| < 2 || Hex(Written(s, how)[0]).None? || Hex(Written(s, how)[1]).None?) ==>
              Fits([c] + s, [style] + how)
  {
    assert ([c] + s)[1..] == s && ([style] + how)[1..] == how;
  }

  /** Whatever decodes was written so. */
  lemma {:induction false} DecodedWasWritten(t: string) returns (how: seq<Style>)
    requires PercentDecode(t).Some?
    ensures |how| == |PercentDecode(t).value| && Fits(PercentDecode(t).value, how) && Written(PercentDecode(t).value, how) == t
    decreases |t|
  {
    hide Written, Fits, HexDigit, Hex;
    if t == "" {
      how := [];
      assert Fits("", []) && Written("", []) == "" by { NothingIsWritten(); }
    } else if t[0] == '%' && |t| >= 3 && Hex(t[1]).Some? && Hex(t[2]).Some? {
      var others := DecodedWasWritten(t[3..]);
      var high := HexIsWritten(t[1]);
      var low := HexIsWritten(t[2]);
      how := [Percent(high, low)] + others;
      var octet := Hex(t[1]).value * 16 + Hex(t[2]).value;
      assert octet / 16 == Hex(t[1]).value && octet % 16 == Hex(t[2]).value;
      WriteOneMore(octet as char, PercentDecode(t[3..]).value, Percent(high, low), others);
      assert t == [t[0], t[1], t[2]] + t[3..];
    } else {
      var others := DecodedWasWritten(t[1..]);
      how := [Plain] + others;
      WriteOneMore(t[0], PercentDecode(t[1..]).value, Plain, others);
      assert t == [t[0]] + t[1..];
    }
  }

  lemma NothingIsWritten()
    ensures Fits("", []) && Written("", []) == ""
  {
  }

  /** Decoding is exactly the inverse of writing, for every text and every choice of what to
      write as a percent sign and two digits. */
  lemma DecodesExactlyTheWritten(t: string, s: string)
    ensures PercentDecode(t) == Some(s) <==> exists how :: Fits(s, how) && Written(s, how) == t
  {
    if PercentDecode(t) == Some(s) {
      var how := DecodedWasWritten(t);
    }
    if how :| Fits(s, how) && Written(s, how) == t { WrittenDecodes(s, how); }
  }

  /** A secret has no percent sign, so that it may be written in every way. */
  lemma {:induction false} WordMayBeWritten(s: string, how: seq<Style>)
    requires Word(s) && |how| == |s|
    ensures Fits(s, how) && Encoded(Written(s, how))
  {
    if s != "" {
      WordMayBeWritten(s[1..], how[1..]);
      assert WordChar(s[0]);
      if how[0].Percent? {
        HexReadsBack(s[0] as int / 16, how[0].upper);
        HexReadsBack(s[0] as int % 16, how[0].upperLow);
      }
    }
  }

  /** In whatever way the secret of a URL is written, the URL parses to the facts. */
  lemma WrittenSecretsReadBack(lib: Library, d: DatabaseFacts, r: RedisFacts, dHow: seq<Style>, rHow: seq<Style>)
    requires Identifier(d.user) && Secret(d.secret) && Identifier(d.database) && GoodPort(d.port) && |dHow| == |d.secret|
    requires Secret(r.secret) && GoodPort(r.port) && |Numeral(r.db)| <= MAX_DIGITS && |rHow| == |r.secret|
    ensures ParseDatabaseUrl(lib, DatabaseWritten(d, Written(d.secret, dHow))) == Accepted(d)
    ensures ParseRedisUrl(lib, RedisWritten(r, Written(r.secret, rHow))) == Accepted(r)
  {
    SecretIsWord(d.secret);
    SecretIsWord(r.secret);
    hide Word, Secret, Identifier, Encoded, Fits, Written, PercentDecode, ParseDatabaseUrl, ParseRedisUrl, Safe, DatabaseWritten, RedisWritten, Numeral;
    WordMayBeWritten(d.secret, dHow);
    WordMayBeWritten(r.secret, rHow);
    WrittenDecodes(d.secret, dHow);
    WrittenDecodes(r.secret, rHow);
    DatabaseReadsBack(lib, d, Written(d.secret, dHow));
    RedisReadsBack(lib, r, Written(r.secret, rHow));
  }

  lemma BareUrl(rest: string)
    requires '/' !in rest && '?' !in rest && '#' !in rest
    ensures SplitUrl(rest) == Url(rest, "", "", "")
  {
    hide First, UpTo, Beyond;
    Partitions(rest, '/', "");
    Partitions(rest, '?', "");
    Partitions(rest, '#', "");
    Partitions("", '?', "");
    Partitions("", '#', "");
    assert rest[..|rest|] == rest && rest[|rest|..] == "";
  }

  lemma BareAuthority(host: string, port: string)
    requires ':' !in host && port != ""
    requires '@' !in host + [':'] + port && '[' !in host + [':'] + port && ']' !in host + [':'] + port
    ensures SplitAuthority(host + [':'] + port) == Authority(None, None, host, Some(port))
  {
    hide First, Last, UpTo, Beyond;
    Partitions(host, ':', port);
    NoSign(host + [':'] + port, '@');
  }

  /** A bare host and port. */
  lemma HostParts(host: string, port: string)
    requires Word(host) && Word(port) && port != ""
    ensures SplitUrl(host + [':'] + port) == Url(host + [':'] + port, "", "", "")
    ensures SplitAuthority(host + [':'] + port) == Authority(None, None, host, Some(port))
    ensures forall c :: c in host + [':'] + port ==> WordChar(c) || c == ':' || c == '@'
  {
    hide SplitUrl, SplitAuthority;
    var rest := host + [':'] + port;
    assert forall c :: c in host || c in port ==> WordChar(c);
    assert forall c :: c in rest ==> c in host || c in port || c == ':';
    hide Word;
    BareUrl(rest);
    BareAuthority(host, port);
  }

  lemma GrafanaRoundTrip(lib: Library, port: nat)
    requires GoodPort(port)
    ensures ParseGrafanaUrl(lib, GrafanaText(port)) == Accepted(port) && Safe(GrafanaText(port))
  {
    hide SplitRaises, Safe, SplitUrl, SplitAuthority, AfterScheme, LOOPBACK, HTTP, Numeral, Number, Word, LoopbackPort;
    LoopbackIsWord();
    SchemesAreSafe();
    NumberOfNumeral(port);
    var rest := LOOPBACK + [':'] + Numeral(port);
    HostParts(LOOPBACK, Numeral(port));
    PlainNetloc(lib, rest);
    WordIsSafe(Numeral(port));
    SafeJoins(LOOPBACK, ':', Numeral(port));
    SchemeComesOff(HTTP, rest);
    assert HTTP + LOOPBACK + ":" + Numeral(port) == HTTP + rest;
    PortReadsBack(port, None, None);
  }

  lemma SafeJoins(a: string, c: char, b: string)
    requires Safe(a) && !Unsafe(c) && Safe(b)
    ensures Safe(a + [c] + b)
  {
  }

  lemma NoSign(s: string, c: char)
    requires c !in s
    ensures Last(s, c) == |s|
  {
  }

  /** The credentials handed to the containers are recovered exactly: user, secret, service
      name, port and database, however the URL was written in the file. */
  lemma ContainerUrlsRecoverTheirParts(c: Configuration)
    requires WellFormed(c)
    ensures var pg := SplitUrl(Authorized(c.database.user, c.database.secret, "postgres", 5432, c.database.database));
            && SplitAuthority(pg.netloc) == Authority(Some(c.database.user), Some(c.database.secret), "postgres", Some(Numeral(5432)))
            && Segment(pg) == Some(c.database.database)
    ensures var redis := SplitUrl(Authorized(DEFAULT_USER, c.redis.secret, "redis", 6379, Numeral(c.redis.db)));
            && SplitAuthority(redis.netloc) == Authority(Some(DEFAULT_USER), Some(c.redis.secret), "redis", Some(Numeral(6379)))
            && Segment(redis) == Some(Numeral(c.redis.db)) && Number(Numeral(c.redis.db)) == c.redis.db
  {
    var d, r := c.database, c.redis;
    assert Word("postgres") && Word("redis");
    LoopbackIsWord();
    hide Secret, SplitUrl, SplitAuthority, Authorized, Numeral, Number, Netloc, DEFAULT_USER, Segment, Word;
    PlainSecret(d.secret);
    PlainSecret(r.secret);
    NumberOfNumeral(r.db);
    AuthorizedSplits(d.user, d.secret, "postgres", 5432, d.database);
    AuthorizedSplits(DEFAULT_USER, r.secret, "redis", 6379, Numeral(r.db));
    PathSegment(Netloc(d.user, d.secret, "postgres", 5432), d.database);
    PathSegment(Netloc(DEFAULT_USER, r.secret, "redis", 6379), Numeral(r.db));
  }

  // ------------------------------------------------------------------ the fixpoint

  lemma NamesAreKeys(f: Field)
    ensures KeyText(Name(f)) && '=' !in Name(f) && '\n' !in Name(f) && Lifecycle(Name(f))
    ensures f != Mode ==> Name(f)[0] != 'M'
  {
  }

  lemma NamesDiffer(f: Field, g: Field)
    ensures Name(f) == Name(g) <==> f == g
  {
    assert |Name(Mode)| == 4 && |Name(DatabaseUrl)| == 12 && |Name(RedisUrl)| == 9 && |Name(GrafanaUrl)| == 11 && |Name(GrafanaAdminPassword)| == 22;
  }

  lemma StartsWithText(line: string)
    requires line != "" && !IsSpace(line[0]) && line[0] != '#'
    ensures !Ignored(line)
  {
    assert StripLeft(line) == line;
    StripRightKeepsTheStart(line);
  }

  lemma AssignmentReadsBack(f: Field, value: string)
    ensures EntryOf(Assignment(f, value)) == Assigned(Name(f), value)
    ensures !Ignored(Assignment(f, value))
    ensures "MODE=" <= Assignment(f, value) <==> f == Mode
    ensures AfterEquals(Assignment(f, value)) == value
  {
    NamesAreKeys(f);
    var name := Name(f);
    var line := name + ['='] + value;
    assert Assignment(f, value) == line && line[0] == name[0];
    StartsWithText(line);
    FirstIs(name, '=', value);
    assert line[..|name|] == name && line[|name| + 1..] == value;
    if f == Mode { assert name == "MODE"; assert line[..5] == "MODE="; }
    hide Name, First, Strip;
    assert f != Mode ==> line[0] != 'M';
  }

  lemma {:induction false} LinesOfJoin(lines: seq<string>)
    requires lines != [] && forall k :: 0 <= k < |lines| ==> '\n' !in lines[k]
    ensures Lines(Join(lines)) == lines
  {
    if |lines| == 1 {
      FirstIs(lines[0], '\n', "");
    } else {
      LinesOfJoin(lines[1..]);
      OneMoreLine(lines[0], Join(lines[1..]));
    }
  }

  lemma NoLineBreak(f: Field, value: string)
    requires '\n' !in value
    ensures '\n' !in Assignment(f, value)
  {
    NamesAreKeys(f);
  }

  lemma ScanAppends(lines: seq<string>, f: Field, value: string, m: map<string, string>)
    requires Scan(lines) == Success(m) && Name(f) !in m
    ensures Scan(lines + [Assignment(f, value)]) == Success(m[Name(f) := value])
  {
    AssignmentReadsBack(f, value);
    var all := lines + [Assignment(f, value)];
    assert all[..|all| - 1] == lines;
  }

  lemma ModeAppends(lines: seq<string>, f: Field, value: string)
    ensures ModeValues(lines + [Assignment(f, value)]) == ModeValues(lines) + (if f == Mode then [value] else [])
  {
    AssignmentReadsBack(f, value);
    var all := lines + [Assignment(f, value)];
    assert all[..|all| - 1] == lines;
  }

  predicate Holds(m: map<string, string>, fs: seq<Field>, values: Field -> string) {
    forall f: Field :: (Name(f) in m <==> f in fs) && (f in fs ==> m[Name(f)] == values(f))
  }

  lemma HoldsOneMore(m: map<string, string>, fs: seq<Field>, f: Field, values: Field -> string)
    requires Holds(m, fs, values) && f !in fs
    ensures Name(f) !in m && Holds(m[Name(f) := values(f)], fs + [f], values)
  {
    hide Name;
    forall g: Field
      ensures Name(g) == Name(f) <==> g == f
      ensures g in fs + [f] <==> g in fs || g == f
    {
      NamesDiffer(f, g);
    }
  }

  lemma NoFields(values: Field -> string)
    ensures ModeValues([]) == [] && Scan([]) == Success(map[]) && Holds(map[], [], values)
  {
  }

  /** One line per field: every value is read back, and nothing else. */
  lemma {:induction false} FieldLinesReadBack(fs: seq<Field>, values: Field -> string)
    requires forall i, j :: 0 <= i < j < |fs| ==> fs[i] != fs[j]
    ensures ModeValues(FieldLines(fs, values)) == if Mode in fs then [values(Mode)] else []
    ensures Scan(FieldLines(fs, values)).Success? && Holds(Scan(FieldLines(fs, values)).value, fs, values)
  {
    hide Scan, ModeValues, Name, Assignment, Holds;
    if fs == [] {
      NoFields(values);
    } else {
      var init, last := fs[..|fs| - 1], fs[|fs| - 1];
      FieldLinesReadBack(init, values);
      assert FieldLines(fs, values) == FieldLines(init, values) + [Assignment(last, values(last))];
      hide FieldLines;
      assert fs == init + [last];
      var m := Scan(FieldLines(init, values)).value;
      HoldsOneMore(m, init, last, values);
      ScanAppends(FieldLines(init, values), last, values(last), m);
      ModeAppends(FieldLines(init, values), last, values(last));
    }
  }

  lemma {:induction false} FieldLinesHaveNoBreaks(fs: seq<Field>, values: Field -> string)
    requires forall f :: '\n' !in values(f)
    ensures |FieldLines(fs, values)| == |fs| && forall k :: 0 <= k < |fs| ==> '\n' !in FieldLines(fs, values)[k]
  {
    if fs != [] {
      FieldLinesHaveNoBreaks(fs[..|fs| - 1], values);
      NoLineBreak(fs[|fs| - 1], values(fs[|fs| - 1]));
    }
  }

  lemma ValuesAreSafe(c: Configuration)
    requires WellFormed(c)
    ensures forall f :: Safe(ValuesOf(c)(f))
  {
    hide Safe, DatabaseText, RedisText, GrafanaText, Word, Secret, Identifier, ParseDatabaseUrl, ParseRedisUrl, ParseGrafanaUrl;
    var lib := Library(_ => false, s => s);
    forall f
      ensures Safe(ValuesOf(c)(f))
    {
      match f
      case Mode => LocalIsSafe();
      case DatabaseUrl => DatabaseRoundTrip(lib, c.database);
      case RedisUrl => RedisRoundTrip(lib, c.redis);
      case GrafanaUrl => GrafanaRoundTrip(lib, c.grafanaPort);
      case GrafanaAdminPassword =>
        SecretIsWord(c.adminPassword);
        WordIsSafe(c.adminPassword);
    }
  }

  lemma SafeHasNoBreaks(s: string)
    requires Safe(s)
    ensures '\n' !in s
  {
    assert Unsafe('\n');
  }

  lemma LocalIsSafe()
    ensures Safe("local")
  {
  }

  lemma FieldsAreAll()
    ensures (forall f :: f in Fields) && forall i, j :: 0 <= i < j < |Fields| ==> Fields[i] != Fields[j]
  {
    assert Fields[0] == Mode && Fields[1] == DatabaseUrl && Fields[2] == RedisUrl && Fields[3] == GrafanaUrl && Fields[4] == GrafanaAdminPassword;
    forall f
      ensures f in Fields
    {
      match f case Mode => case DatabaseUrl => case RedisUrl => case GrafanaUrl => case GrafanaAdminPassword =>
    }
  }

  /** A DATABASE_URL of `postgresql://[` and anything in the other fields: the library raises
      over the bracket, whatever else it knows. */
  lemma UnclosedBracketRaises(lib: Library, values: Field -> string)
    requires values(Mode) == "local" && values(DatabaseUrl) == POSTGRES + "["
    requires forall f :: values(f) != "" && '\n' !in values(f)
    ensures Parse(lib, Join(FieldLines(Fields, values))) == Failure(PlainValueError)
  {
    FieldsAreAll();
    var lines := FieldLines(Fields, values);
    hide Scan, ModeValues, Name, Lines, FieldLines, Join, Fields, SplitUrl, SplitRaises, POSTGRES, Safe, ParseRedisUrl, ParseGrafanaUrl, Secret;
    FieldLinesHaveNoBreaks(Fields, values);
    FieldLinesReadBack(Fields, values);
    LinesOfJoin(lines);
    SchemesAreSafe();
    BracketRaises(lib);
    SchemeComesOff(POSTGRES, "[");
    assert Holds(Scan(lines).value, Fields, values);
    assert forall f :: Required(Scan(lines).value, f) == Some(values(f));
  }

  lemma BracketRaises(lib: Library)
    ensures Safe("[") && SplitRaises(lib, SplitUrl("[").netloc)
  {
    BareUrl("[");
  }

  /** What the printed form scans to. */
  lemma PrintScans(c: Configuration)
    requires WellFormed(c)
    ensures ModeValues(Lines(Print(c))) == ["local"] && Scan(Lines(Print(c))).Success?
    ensures forall f :: Name(f) in Scan(Lines(Print(c))).value && Scan(Lines(Print(c))).value[Name(f)] == ValuesOf(c)(f)
  {
    FieldsAreAll();
    hide Safe, FieldLines, Scan, ModeValues, Name, WellFormed, DatabaseText, RedisText, GrafanaText, Fields;
    ValuesAreSafe(c);
    forall f
      ensures '\n' !in ValuesOf(c)(f)
    {
      SafeHasNoBreaks(ValuesOf(c)(f));
    }
    FieldLinesHaveNoBreaks(Fields, ValuesOf(c));
    FieldLinesReadBack(Fields, ValuesOf(c));
    assert Mode in Fields && |Fields| > 0 && Holds(Scan(FieldLines(Fields, ValuesOf(c))).value, Fields, ValuesOf(c));
    LinesOfJoin(FieldLines(Fields, ValuesOf(c)));
    assert Lines(Print(c)) == FieldLines(Fields, ValuesOf(c));
    hide Print, Join, Lines;
    assert ValuesOf(c)(Mode) == "local";
  }

  /** Every well-formed configuration is what its own printed form parses to. */
  lemma PrintParses(lib: Library, c: Configuration)
    requires WellFormed(c)
    ensures Parse(lib, Print(c)) == Success(c)
  {
    hide Lines, Scan, ModeValues, Print, Assignment, Name, DatabaseText, RedisText, GrafanaText, ParseDatabaseUrl, ParseRedisUrl, ParseGrafanaUrl, Safe, Secret, Identifier;
    PrintScans(c);
    DatabaseRoundTrip(lib, c.database);
    RedisRoundTrip(lib, c.redis);
    GrafanaRoundTrip(lib, c.grafanaPort);
    NotEmpty(c);
    BuildsFrom(lib, Scan(Lines(Print(c))).value, c);
  }

  lemma BuildsFrom(lib: Library, assignments: map<string, string>, c: Configuration)
    requires WellFormed(c)
    requires forall f :: Name(f) in assignments && assignments[Name(f)] == ValuesOf(c)(f)
    requires ParseDatabaseUrl(lib, DatabaseText(c.database)) == Accepted(c.database) && DatabaseText(c.database) != ""
    requires ParseRedisUrl(lib, RedisText(c.redis)) == Accepted(c.redis) && RedisText(c.redis) != ""
    requires ParseGrafanaUrl(lib, GrafanaText(c.grafanaPort)) == Accepted(c.grafanaPort) && GrafanaText(c.grafanaPort) != "" && c.adminPassword != ""
    ensures Build(lib, assignments) == Success(c)
  {
    hide Name, DatabaseText, RedisText, GrafanaText, ParseDatabaseUrl, ParseRedisUrl, ParseGrafanaUrl, Secret, Identifier;
    assert Required(assignments, DatabaseUrl) == Some(ValuesOf(c)(DatabaseUrl));
    assert Required(assignments, RedisUrl) == Some(ValuesOf(c)(RedisUrl));
    assert Required(assignments, GrafanaUrl) == Some(ValuesOf(c)(GrafanaUrl));
    assert Required(assignments, GrafanaAdminPassword) == Some(ValuesOf(c)(GrafanaAdminPassword));
  }

  lemma NotEmpty(c: Configuration)
    requires WellFormed(c)
    ensures DatabaseText(c.database) != "" && RedisText(c.redis) != "" && GrafanaText(c.grafanaPort) != "" && c.adminPassword != ""
  {
    hide Authorized, Numeral;
    assert |POSTGRES| > 0 && |REDIS| > 0 && |HTTP| > 0;
  }

  /** Accepting normalises: the printed form of an accepted file is accepted with the same
      result; and a configuration is accepted in some form if and only if it is well formed. */
  lemma ParsingIsAFixpoint(lib: Library, text: string)
    ensures Parse(lib, text).Success? ==> Parse(lib, Print(Parse(lib, text).value)) == Parse(lib, text)
  {
    AcceptedIsWellFormed(lib, text);
    hide Parse, Print, WellFormed;
    if Parse(lib, text).Success? { PrintParses(lib, Parse(lib, text).value); }
  }

  lemma AcceptedExactlyWhenWellFormed(lib: Library, c: Configuration)
    ensures (exists text :: Parse(lib, text) == Success(c)) <==> WellFormed(c)
  {
    hide Parse, Print, WellFormed;
    if WellFormed(c) { PrintParses(lib, c); }
    if text :| Parse(lib, text) == Success(c) { AcceptedIsWellFormed(lib, text); }
  }

  // ------------------------------------------------------------------ lines that do not matter

  lemma OnlyLine(line: string)
    requires '\n' !in line
    ensures Lines(line) == [line]
  {
    FirstIs(line, '\n', "");
  }

  lemma {:induction false} LastLineAppends(text: string, line: string)
    requires '\n' !in line
    ensures Lines(text + "\n" + line) == Lines(text) + [line]
    decreases |text|
  {
    hide Lines;
    var n := First(text, '\n');
    hide First;
    if n == |text| {
      OneMoreLine(text, line);
      OnlyLine(text);
      OnlyLine(line);
    } else {
      var head, tail := text[..n], text[n + 1..];
      LastLineAppends(tail, line);
      assert text == head + "\n" + tail;
      assert text + "\n" + line == head + "\n" + (tail + "\n" + line);
      OneMoreLine(head, tail + "\n" + line);
      OneMoreLine(head, tail);
    }
  }

  /** A comment, a blank line, or a variable that is not one of the five. */
  predicate Irrelevant(line: string) {
    '\n' !in line && (EntryOf(line).Skipped? || (EntryOf(line).Assigned? && !Lifecycle(EntryOf(line).key)))
  }

  lemma ModeLineIsLifecycle(line: string)
    requires !Ignored(line) && "MODE=" <= line
    ensures EntryOf(line).Assigned? && Lifecycle(EntryOf(line).key)
  {
    var value := line[5..];
    assert line == "MODE" + ['='] + value;
    NamesAreKeys(Mode);
    FirstIs("MODE", '=', value);
    assert line[..4] == "MODE";
  }

  /** Assignments that agree on the five fields. */
  ghost predicate Agree(m: map<string, string>, n: map<string, string>) {
    forall f :: (Name(f) in m <==> Name(f) in n) && (Name(f) in m ==> m[Name(f)] == n[Name(f)])
  }

  lemma BuildReadsTheFiveOnly(lib: Library, a: map<string, string>, b: map<string, string>)
    requires Agree(a, b)
    ensures Build(lib, a) == Build(lib, b)
  {
    hide Name, ParseDatabaseUrl, ParseRedisUrl, ParseGrafanaUrl, Secret;
    assert forall f :: Required(a, f) == Required(b, f);
    hide Required;
  }

  lemma LifecycleNames(f: Field)
    ensures Lifecycle(Name(f))
  {
    NamesAreKeys(f);
  }

  /** Comments, blank lines and other variables never change the result, whatever they contain:
      even a carriage return inside one of them is let through. */
  lemma IrrelevantLinesDoNotMatter(lib: Library, text: string, line: string)
    requires Irrelevant(line)
    ensures Parse(lib, text + "\n" + line) == Parse(lib, text)
  {
    LastLineAppends(text, line);
    if !Ignored(line) && "MODE=" <= line { ModeLineIsLifecycle(line); }
    var lines, all := Lines(text), Lines(text) + [line];
    assert all[..|all| - 1] == lines && all[|all| - 1] == line;
    assert ModeValues(all) == ModeValues(lines);
    if Scan(lines).Success? && EntryOf(line).Assigned? {
      var a := Scan(lines).value;
      var b := a[EntryOf(line).key := EntryOf(line).value];
      forall f
        ensures (Name(f) in a <==> Name(f) in b) && (Name(f) in a ==> a[Name(f)] == b[Name(f)])
      {
        LifecycleNames(f);
      }
      BuildReadsTheFiveOnly(lib, a, b);
    }
    hide Build, Lines, ModeValues, Lifecycle, EntryOf;
  }

  /** The lines that are read for something. */
  function Relevant(lines: seq<string>): seq<string> {
    if lines == [] then []
    else
      var last := lines[|lines| - 1];
      Relevant(lines[..|lines| - 1]) + (if Irrelevant(last) then [] else [last])
  }

  /** Two scans that agree on the five fields, or fail for one reason, wherever the line is. */
  ghost predicate Alike(a: Result<map<string, string>, ConfigError>, b: Result<map<string, string>, ConfigError>) {
    match (a, b)
    case (Success(m), Success(n)) => Agree(m, n)
    case (Failure(e), Failure(g)) => e == g || (e.InvalidConfig? && g.InvalidConfig? && e.blame.AtLine? && g.blame.AtLine?)
    case _ => false
  }

  lemma LifecycleKey(key: string)
    ensures Lifecycle(key) ==> exists f :: key == Name(f)
  {
    if Lifecycle(key) {
      assert key == Name(Mode) || key == Name(DatabaseUrl) || key == Name(RedisUrl) || key == Name(GrafanaUrl) || key == Name(GrafanaAdminPassword);
    }
  }

  lemma AgreeOneMore(m: map<string, string>, n: map<string, string>, key: string, value: string)
    requires Agree(m, n)
    ensures Agree(m[key := value], n[key := value])
    ensures Lifecycle(key) ==> (key in m <==> key in n)
    ensures !Lifecycle(key) ==> Agree(m[key := value], n)
  {
    LifecycleKey(key);
    forall f
      ensures Lifecycle(Name(f))
    {
      LifecycleNames(f);
    }
    hide Lifecycle, Name;
  }

  /** What one more line makes of a scan of `n` lines. */
  function Scanned(prior: Result<map<string, string>, ConfigError>, n: nat, entry: Entry): Result<map<string, string>, ConfigError> {
    if prior.Failure? || entry.Skipped? then prior
    else if entry.Malformed? then Failure(InvalidConfig(AtLine(n + 1)))
    else if Lifecycle(entry.key) && entry.key in prior.value then Failure(InvalidConfig(OnKey(entry.key)))
    else Success(prior.value[entry.key := entry.value])
  }

  function ModeValue(line: string): seq<string> { if !Ignored(line) && "MODE=" <= line then [AfterEquals(line)] else [] }

  lemma ScanOneMore(lines: seq<string>, line: string)
    ensures Scan(lines + [line]) == Scanned(Scan(lines), |lines|, EntryOf(line))
    ensures ModeValues(lines + [line]) == ModeValues(lines) + ModeValue(line)
  {
    hide EntryOf, Lifecycle, Ignored, AfterEquals;
    assert (lines + [line])[..|lines|] == lines;
  }

  lemma AlikeOneMore(a: Result<map<string, string>, ConfigError>, b: Result<map<string, string>, ConfigError>, i: nat, j: nat, entry: Entry)
    requires Alike(a, b)
    ensures Alike(Scanned(a, i, entry), Scanned(b, j, entry))
    ensures entry.Skipped? || (entry.Assigned? && !Lifecycle(entry.key)) ==> Alike(Scanned(a, i, entry), b)
  {
    if a.Success? && b.Success? && entry.Assigned? { AgreeOneMore(a.value, b.value, entry.key, entry.value); }
    hide Agree, Lifecycle;
  }

  lemma IrrelevantIsNotMode(line: string)
    requires Irrelevant(line)
    ensures ModeValue(line) == [] && (EntryOf(line).Skipped? || (EntryOf(line).Assigned? && !Lifecycle(EntryOf(line).key)))
  {
    if !Ignored(line) && "MODE=" <= line { ModeLineIsLifecycle(line); }
  }

  lemma NothingIsAlike()
    ensures Relevant([]) == [] && Alike(Scan([]), Scan([]))
  {
  }

  /** Leaving out the other lines changes neither the mode nor what is scanned. */
  lemma {:induction false} RelevantScans(lines: seq<string>)
    ensures ModeValues(lines) == ModeValues(Relevant(lines)) && Alike(Scan(lines), Scan(Relevant(lines)))
  {
    if lines == [] {
      NothingIsAlike();
    } else {
      var init, last := lines[..|lines| - 1], lines[|lines| - 1];
      RelevantScans(init);
      var kept := Relevant(init);
      assert lines == init + [last];
      assert Relevant(lines) == kept + (if Irrelevant(last) then [] else [last]);
      assert kept + [] == kept;
      hide Scan, ModeValues, Relevant, EntryOf, Lifecycle, Irrelevant, ModeValue, Alike, Scanned;
      AlikeOneMore(Scan(init), Scan(kept), |init|, |kept|, EntryOf(last));
      ScanOneMore(init, last);
      ScanOneMore(kept, last);
      if Irrelevant(last) { IrrelevantIsNotMode(last); }
    }
  }

  /** The same result, but for the number of the line to blame. */
  predicate SameVerdict(a: Result<Configuration, ConfigError>, b: Result<Configuration, ConfigError>) {
    a == b || (a.Failure? && b.Failure? && a.error.InvalidConfig? && b.error.InvalidConfig? && a.error.blame.AtLine? && b.error.blame.AtLine?)
  }

  /** Texts that differ in comments, blank lines and other variables alone, wherever these are
      and whatever they contain, come to the same. */
  lemma OnlyRelevantLinesMatter(lib: Library, a: string, b: string)
    requires Relevant(Lines(a)) == Relevant(Lines(b))
    ensures SameVerdict(Parse(lib, a), Parse(lib, b))
  {
    RelevantScans(Lines(a));
    RelevantScans(Lines(b));
    var kept, modes := Scan(Relevant(Lines(a))), ModeValues(Lines(a));
    hide Lines, Scan, ModeValues, Relevant, Alike, Build, SameVerdict;
    AlikeJudged(lib, Scan(Lines(a)), kept, modes);
    AlikeJudged(lib, Scan(Lines(b)), kept, modes);
    assert Judged(lib, Scan(Lines(a)), modes) == Parse(lib, a) && Judged(lib, Scan(Lines(b)), modes) == Parse(lib, b);
    SameVerdictJoins(Parse(lib, a), Judged(lib, kept, modes), Parse(lib, b));
  }

  /** The verdict on a scan. */
  function Judged(lib: Library, scan: Result<map<string, string>, ConfigError>, modes: seq<string>): Result<Configuration, ConfigError> {
    if modes != ["local"] then Failure(InvalidMode)
    else if scan.Failure? then Failure(scan.error)
    else Build(lib, scan.value)
  }

  lemma AlikeJudged(lib: Library, x: Result<map<string, string>, ConfigError>, y: Result<map<string, string>, ConfigError>, modes: seq<string>)
    requires Alike(x, y)
    ensures SameVerdict(Judged(lib, x, modes), Judged(lib, y, modes))
  {
    if x.Success? && y.Success? { BuildReadsTheFiveOnly(lib, x.value, y.value); }
    hide Build, Agree;
  }

  lemma SameVerdictJoins(a: Result<Configuration, ConfigError>, b: Result<Configuration, ConfigError>, c: Result<Configuration, ConfigError>)
    requires SameVerdict(a, b) && SameVerdict(c, b)
    ensures SameVerdict(a, c)
  {
  }

  // ------------------------------------------------------------------ carriage returns

  const CR: char := '\r'

  predicate SomeHas(lines: seq<string>, c: char) { exists k :: 0 <= k < |lines| && c in lines[k] }

  lemma SomeHasOneMore(head: string, others: seq<string>, c: char)
    ensures SomeHas([head] + others, c) <==> c in head || SomeHas(others, c)
  {
    var lines := [head] + others;
    assert lines[0] == head && forall k :: 0 < k < |lines| ==> lines[k] == others[k - 1];
    if SomeHas(others, c) {
      var k :| 0 <= k < |others| && c in others[k];
      assert c in lines[k + 1];
    }
  }

  lemma Joined(head: string, tail: string, c: char)
    requires c != '\n'
    ensures c in head + "\n" + tail <==> c in head || c in tail
  {
  }

  lemma OneHas(line: string, c: char)
    ensures SomeHas([line], c) <==> c in line
  {
    assert [line][0] == line;
  }

  /** Every character but the line breaks is in some line, and they are in none. */
  lemma {:induction false} LinesCover(text: string, c: char)
    requires c != '\n'
    ensures c in text <==> SomeHas(Lines(text), c)
    ensures !SomeHas(Lines(text), '\n')
    decreases |text|
  {
    hide Lines, SomeHas;
    var n := First(text, '\n');
    hide First;
    if n == |text| {
      OnlyLine(text);
      OneHas(text, c);
      OneHas(text, '\n');
    } else {
      var head, tail := text[..n], text[n + 1..];
      LinesCover(tail, c);
      OneMoreLine(head, tail);
      assert text == head + "\n" + tail;
      Joined(head, tail, c);
      SomeHasOneMore(head, Lines(tail), c);
      SomeHasOneMore(head, Lines(tail), '\n');
    }
  }

  lemma {:induction false} ScanRecords(lines: seq<string>, k: nat)
    requires k < |lines| && Scan(lines).Success? && EntryOf(lines[k]).Assigned? && Lifecycle(EntryOf(lines[k]).key)
    ensures var entry := EntryOf(lines[k]); entry.key in Scan(lines).value && Scan(lines).value[entry.key] == entry.value
    decreases |lines|
  {
    hide EntryOf, Lifecycle;
    if k < |lines| - 1 { ScanRecords(lines[..|lines| - 1], k); }
  }

  lemma {:induction false} ModeRecords(lines: seq<string>, k: nat)
    requires k < |lines| && !Ignored(lines[k]) && "MODE=" <= lines[k]
    ensures AfterEquals(lines[k]) in ModeValues(lines)
    decreases |lines|
  {
    hide Ignored, AfterEquals;
    if k < |lines| - 1 { ModeRecords(lines[..|lines| - 1], k); }
  }

  lemma AssignedLine(line: string)
    requires EntryOf(line).Assigned?
    ensures var entry := EntryOf(line);
            && line == entry.key + ['='] + entry.value && KeyText(entry.key)
            && (entry.key == Name(Mode) ==> !Ignored(line) && "MODE=" <= line && AfterEquals(line) == entry.value)
    ensures CR in line ==> CR in EntryOf(line).value
  {
    var n := First(line, '=');
    hide Ignored, First;
    var key, value := line[..n], line[n + 1..];
    assert line == key + ['='] + value;
    assert CR !in key;
  }

  /** What a URL or a secret that is accepted cannot hold. */
  lemma AcceptedHasNoReturn(lib: Library, value: string)
    ensures ParseDatabaseUrl(lib, value).Accepted? || ParseRedisUrl(lib, value).Accepted? || ParseGrafanaUrl(lib, value).Accepted? || Secret(value) ==>
              CR !in value
  {
    if Secret(value) { SecretIsWord(value); }
    hide SplitRaises, SplitUrl, SplitAuthority, LoopbackPort, DecodeSecret, Segment, Identifier, Secret;
    assert Unsafe(CR) && !WordChar(CR);
    if AfterScheme(value, POSTGRES).Some? || AfterScheme(value, REDIS).Some? || AfterScheme(value, HTTP).Some? {
      assert forall k :: 0 <= k < |value| ==> !Unsafe(value[k]);
    }
  }

  /** What is built was accepted field by field. */
  lemma BuiltIsAccepted(lib: Library, m: map<string, string>)
    requires Build(lib, m).Success?
    ensures Name(DatabaseUrl) in m && ParseDatabaseUrl(lib, m[Name(DatabaseUrl)]).Accepted?
    ensures Name(RedisUrl) in m && ParseRedisUrl(lib, m[Name(RedisUrl)]).Accepted?
    ensures Name(GrafanaUrl) in m && ParseGrafanaUrl(lib, m[Name(GrafanaUrl)]).Accepted?
    ensures Name(GrafanaAdminPassword) in m && Secret(m[Name(GrafanaAdminPassword)])
  {
    hide ParseDatabaseUrl, ParseRedisUrl, ParseGrafanaUrl, Secret, Name;
  }

  /** In a configuration that is built none of the four values has one. */
  lemma BuiltHasNoReturn(lib: Library, m: map<string, string>, f: Field)
    requires Build(lib, m).Success? && f != Mode && Name(f) in m
    ensures CR !in m[Name(f)]
  {
    hide Build, ParseDatabaseUrl, ParseRedisUrl, ParseGrafanaUrl, Secret, Name, CR;
    BuiltIsAccepted(lib, m);
    AcceptedHasNoReturn(lib, m[Name(f)]);
  }

  lemma LocalHasNoReturn(values: seq<string>)
    requires values == ["local"]
    ensures forall v :: v in values ==> CR !in v
  {
  }

  /** A line of one of the five fields that has a carriage return is never part of an accepted
      file. */
  lemma FieldLineHasNoReturn(lib: Library, text: string, k: nat)
    requires Parse(lib, text).Success? && k < |Lines(text)| && EntryOf(Lines(text)[k]).Assigned? && Lifecycle(EntryOf(Lines(text)[k]).key)
    ensures CR !in Lines(text)[k]
  {
    var lines, line := Lines(text), Lines(text)[k];
    var entry := EntryOf(line);
    ScanRecords(lines, k);
    AssignedLine(line);
    LifecycleKey(entry.key);
    var f :| entry.key == Name(f);
    if f == Mode {
      ModeRecords(lines, k);
      LocalHasNoReturn(ModeValues(lines));
    } else {
      hide Build, Scan, ModeValues, Lines, EntryOf, Lifecycle, Name;
      BuiltHasNoReturn(lib, Scan(lines).value, f);
    }
  }

  /** An accepted file has a carriage return exactly if one stands in a comment, a blank line or
      another variable. */
  lemma ReturnsExactlyWhen(lib: Library, text: string)
    requires Parse(lib, text).Success?
    ensures CR in text <==> exists k :: 0 <= k < |Lines(text)| && Irrelevant(Lines(text)[k]) && CR in Lines(text)[k]
  {
    var lines := Lines(text);
    LinesCover(text, CR);
    ScansExactlyWhen(lines);
    forall k | 0 <= k < |lines| && CR in lines[k]
      ensures Irrelevant(lines[k])
    {
      assert !EntryOf(lines[k]).Malformed?;
      if EntryOf(lines[k]).Assigned? && Lifecycle(EntryOf(lines[k]).key) { FieldLineHasNoReturn(lib, text, k); }
    }
  }

  lemma OtherVariable()
    ensures Irrelevant("X=\r") && CR in "X=\r"
  {
    var line := "X" + ['='] + "\r";
    assert line == "X=\r" && line[0] == 'X' && line[2] == CR;
    StartsWithText(line);
    FirstIs("X", '=', "\r");
    assert line[..1] == "X" && |"X"| == 1;
    assert |Name(Mode)| == 4 && |Name(DatabaseUrl)| == 12 && |Name(RedisUrl)| == 9 && |Name(GrafanaUrl)| == 11 && |Name(GrafanaAdminPassword)| == 22;
  }

  /** Such a file exists for every configuration. */
  lemma ReturnGetsThrough(lib: Library, c: Configuration)
    requires WellFormed(c)
    ensures Parse(lib, Print(c) + "\n" + "X=\r") == Success(c) && CR in Print(c) + "\n" + "X=\r"
  {
    hide Parse, Print, WellFormed, Irrelevant;
    OtherVariable();
    PrintParses(lib, c);
    IrrelevantLinesDoNotMatter(lib, Print(c), "X=\r");
  }
}
