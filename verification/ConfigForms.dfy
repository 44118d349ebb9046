/** The exact texts the configuration parser accepts, and what it blames otherwise, written out. */
module ConfigForms {
  import opened Config
  import opened Text
  import opened Wrappers

  // ------------------------------------------------------------------ URLs

  /** What may follow the path: a query or a fragment, as long as it is empty. */
  predicate Nothing(tail: string) { tail == "" || tail == "?" || tail == "#" || tail == "?#" }

  /** Digits of a port, leading zeros and all. */
  predicate PortText(digits: string, port: nat) {
    AllDigits(digits) && |digits| <= 4300 && Number(digits) == port && 1 <= port <= 65535
  }

  predicate DatabaseForm(value: string, d: DatabaseFacts, raw: string, digits: string, tail: string) {
    && value == "postgresql://" + d.user + ":" + raw + "@127.0.0.1:" + digits + "/" + d.database + tail
    && Identifier(d.user) && Identifier(d.database) && Secret(d.secret) && PercentDecode(raw) == Some(d.secret)
    && PortText(digits, d.port) && Nothing(tail)
  }

  predicate RedisForm(value: string, r: RedisFacts, raw: string, digits: string, number: string, tail: string) {
    && value == "redis://default:" + raw + "@127.0.0.1:" + digits + "/" + number + tail
    && Secret(r.secret) && PercentDecode(raw) == Some(r.secret)
    && AllDigits(number) && |number| <= 4300 && Number(number) == r.db
    && PortText(digits, r.port) && Nothing(tail)
  }

  predicate GrafanaForm(value: string, port: nat, digits: string, path: string, tail: string) {
    && value == "http://127.0.0.1:" + digits + path + tail
    && PortText(digits, port) && (path == "" || path == "/") && Nothing(tail)
  }

  /** The library takes no brackets around the loopback literal: they are for IPv6 (section 3.2.2
      of RFC 3986). */
  ghost predicate NoBracketedLoopback(lib: Library) {
    forall a, b :: '@' !in b ==> !lib.bracketsAccepted(a + "[127.0.0.1]" + b)
  }

  lemma Cut(s: string, c: char)
    ensures c !in UpTo(s, c)
    ensures if First(s, c) < |s| then s == UpTo(s, c) + [c] + Beyond(s, c) else UpTo(s, c) == s && Beyond(s, c) == ""
  {
  }

  /** Without query and fragment a URL is its authority, its path and perhaps their marks. */
  lemma RestIs(rest: string) returns (tail: string)
    requires SplitUrl(rest).query == "" && SplitUrl(rest).fragment == ""
    ensures Nothing(tail) && rest == SplitUrl(rest).netloc + SplitUrl(rest).path + tail
  {
    hide First, UpTo, Beyond, Nothing;
    var netloc := SplitUrl(rest).netloc;
    var all := rest[|netloc|..];
    tail := PathIs(all);
    assert rest == netloc + all;
    assert netloc + (SplitUrl(rest).path + tail) == netloc + SplitUrl(rest).path + tail;
  }

  lemma PathIs(all: string) returns (tail: string)
    requires Beyond(UpTo(all, '#'), '?') == "" && Beyond(all, '#') == ""
    ensures Nothing(tail) && all == UpTo(UpTo(all, '#'), '?') + tail
  {
    hide First, UpTo, Beyond;
    var before, path := UpTo(all, '#'), UpTo(UpTo(all, '#'), '?');
    var hash, mark := if before == all then "" else "#", if path == before then "" else "?";
    Cut(all, '#');
    Cut(before, '?');
    assert all == before + hash && before == path + mark;
    tail := mark + hash;
    assert tail == "" || tail == "?" || tail == "#" || tail == "?#";
  }

  /** What follows the last `@`. */
  function HostInfo(netloc: string): string {
    if Last(netloc, '@') == |netloc| then netloc else netloc[Last(netloc, '@') + 1..]
  }

  /** An authority the library takes, on the loopback literal and with a port, has no bracketed
      host. */
  lemma HostIsPlain(lib: Library, netloc: string)
    requires NoBracketedLoopback(lib) && !SplitRaises(lib, netloc)
    requires SplitAuthority(netloc).host == "127.0.0.1" && SplitAuthority(netloc).port.Some?
    ensures First(HostInfo(netloc), '[') == |HostInfo(netloc)|
  {
    hide First, Last, UpTo, Beyond, HostInfo;
    var info := HostInfo(netloc);
    HostOf(netloc);
    if First(info, '[') < |info| {
      var inside := Beyond(info, '[');
      Cut(info, '[');
      Cut(inside, ']');
      Cut("", ':');
      var before :| netloc == before + info;
      BracketsRaise(lib, before, UpTo(info, '['), Beyond(inside, ']'));
    }
  }

  lemma HostOf(netloc: string)
    ensures var info := HostInfo(netloc);
            && '@' !in info
            && (exists before :: netloc == before + info)
            && SplitAuthority(netloc).host == (if First(info, '[') < |info| then UpTo(Beyond(info, '['), ']') else UpTo(info, ':'))
            && SplitAuthority(netloc).port ==
               var port := Beyond(if First(info, '[') < |info| then Beyond(Beyond(info, '['), ']') else info, ':');
               if port == "" then None else Some(port)
  {
    hide First, Last, UpTo, Beyond;
    var info := HostInfo(netloc);
    assert netloc == netloc[..|netloc| - |info|] + info;
  }

  lemma BracketsRaise(lib: Library, before: string, x: string, y: string)
    requires NoBracketedLoopback(lib) && '@' !in x + ['['] + ("127.0.0.1" + [']'] + y)
    ensures SplitRaises(lib, before + (x + ['['] + ("127.0.0.1" + [']'] + y)))
  {
    var info := x + ['['] + ("127.0.0.1" + [']'] + y);
    var netloc, a := before + info, before + x;
    assert info[|x| + 11..] == y;
    assert netloc == a + "[127.0.0.1]" + y;
    assert netloc[|a|] == '[' && netloc[|a| + 10] == ']';
    assert !lib.bracketsAccepted(netloc);
  }

  lemma HostText(lib: Library, netloc: string)
    requires NoBracketedLoopback(lib) && !SplitRaises(lib, netloc)
    requires SplitAuthority(netloc).host == "127.0.0.1" && SplitAuthority(netloc).port.Some?
    ensures HostInfo(netloc) == "127.0.0.1:" + SplitAuthority(netloc).port.value
  {
    hide First, UpTo, Beyond, HostInfo, SplitAuthority;
    HostIsPlain(lib, netloc);
    HostOf(netloc);
    var info := HostInfo(netloc);
    Cut(info, ':');
    assert "127.0.0.1" + [':'] == "127.0.0.1:";
  }

  lemma UserText(netloc: string)
    requires SplitAuthority(netloc).user.Some? && SplitAuthority(netloc).password.Some?
    ensures var a := SplitAuthority(netloc); netloc == a.user.value + ":" + a.password.value + "@" + HostInfo(netloc)
  {
    hide First, Last, UpTo, Beyond;
    var at := Last(netloc, '@');
    Cut(netloc[..at], ':');
    assert netloc == netloc[..at] + ['@'] + netloc[at + 1..];
  }

  /** The text of an authority on the loopback literal, with a user and without. */
  lemma NetlocIs(lib: Library, netloc: string)
    requires NoBracketedLoopback(lib) && !SplitRaises(lib, netloc)
    requires SplitAuthority(netloc).host == "127.0.0.1" && SplitAuthority(netloc).port.Some?
    ensures var a := SplitAuthority(netloc);
            && (a.user.Some? && a.password.Some? ==> netloc == a.user.value + ":" + a.password.value + "@127.0.0.1:" + a.port.value)
            && (a.user.None? ==> netloc == "127.0.0.1:" + a.port.value)
  {
    hide SplitAuthority, SplitRaises, NoBracketedLoopback, HostInfo;
    HostText(lib, netloc);
    var a := SplitAuthority(netloc);
    if a.user.Some? && a.password.Some? {
      UserText(netloc);
      Joins(a.user.value, a.password.value, a.port.value);
    }
    NoUserText(netloc);
  }

  lemma NoUserText(netloc: string)
    ensures SplitAuthority(netloc).user.None? ==> HostInfo(netloc) == netloc
  {
  }

  lemma Joins(user: string, password: string, port: string)
    ensures user + ":" + password + "@" + ("127.0.0.1:" + port) == user + ":" + password + "@127.0.0.1:" + port
  {
    assert "@" + ("127.0.0.1:" + port) == "@127.0.0.1:" + port;
  }

  // ------------------------------------------------------------------ what is accepted was written so

  lemma DatabaseIsForm(lib: Library, value: string) returns (raw: string, digits: string, tail: string)
    requires NoBracketedLoopback(lib) && ParseDatabaseUrl(lib, value).Accepted?
    ensures DatabaseForm(value, ParseDatabaseUrl(lib, value).facts, raw, digits, tail)
  {
    hide SplitUrl, SplitAuthority, SplitRaises, NoBracketedLoopback, Identifier, Secret, PercentDecode, Number, AllDigits, Nothing;
    var rest := AfterScheme(value, POSTGRES).value;
    var u := SplitUrl(rest);
    var a := SplitAuthority(u.netloc);
    NetlocIs(lib, u.netloc);
    tail := RestIs(rest);
    raw, digits := a.password.value, a.port.value;
    assert value == POSTGRES + rest;
    assert u.path == "/" + Segment(u).value;
    assert POSTGRES == "postgresql://";
  }

  lemma RedisIsForm(lib: Library, value: string) returns (raw: string, digits: string, number: string, tail: string)
    requires NoBracketedLoopback(lib) && ParseRedisUrl(lib, value).Accepted?
    ensures RedisForm(value, ParseRedisUrl(lib, value).facts, raw, digits, number, tail)
  {
    hide SplitUrl, SplitAuthority, SplitRaises, NoBracketedLoopback, Secret, PercentDecode, Number, AllDigits, Nothing;
    var rest := AfterScheme(value, REDIS).value;
    var u := SplitUrl(rest);
    var a := SplitAuthority(u.netloc);
    NetlocIs(lib, u.netloc);
    tail := RestIs(rest);
    raw, digits, number := a.password.value, a.port.value, Segment(u).value;
    assert value == REDIS + rest;
    assert u.path == "/" + number;
    RedisStarts(raw, digits);
  }

  lemma RedisStarts(raw: string, digits: string)
    ensures REDIS + ("default" + ":" + raw + "@127.0.0.1:" + digits) == "redis://default:" + raw + "@127.0.0.1:" + digits
  {
    assert REDIS + ("default" + ":") == "redis://default:";
  }

  lemma GrafanaIsForm(lib: Library, value: string) returns (digits: string, path: string, tail: string)
    requires NoBracketedLoopback(lib) && ParseGrafanaUrl(lib, value).Accepted?
    ensures GrafanaForm(value, ParseGrafanaUrl(lib, value).facts, digits, path, tail)
  {
    hide SplitUrl, SplitAuthority, SplitRaises, NoBracketedLoopback, Number, AllDigits, Nothing;
    var rest := AfterScheme(value, HTTP).value;
    var u := SplitUrl(rest);
    NetlocIs(lib, u.netloc);
    tail := RestIs(rest);
    digits, path := SplitAuthority(u.netloc).port.value, u.path;
    assert value == HTTP + rest;
    assert HTTP + ("127.0.0.1:" + digits) == "http://127.0.0.1:" + digits;
  }

  // ------------------------------------------------------------------ what is written so is accepted

  /** An authority, a path and the marks of an empty query and fragment. */
  lemma UrlWithTail(netloc: string, path: string, tail: string)
    requires Nothing(tail) && '/' !in netloc && '?' !in netloc && '#' !in netloc && '?' !in path && '#' !in path
    requires path == "" || path[0] == '/'
    ensures SplitUrl(netloc + path + tail) == Url(netloc, path, "", "")
  {
    hide First, UpTo, Beyond;
    var rest, all := netloc + path + tail, path + tail;
    assert rest == netloc + all;
    NetlocEnds(netloc, all);
    assert rest[..|netloc|] == netloc && rest[|netloc|..] == all;
    PathEnds(path, tail);
  }

  lemma NetlocEnds(netloc: string, all: string)
    requires '/' !in netloc && '?' !in netloc && '#' !in netloc
    requires all == "" || all[0] == '/' || all[0] == '?' || all[0] == '#'
    ensures var rest := netloc + all; Min(First(rest, '/'), Min(First(rest, '?'), First(rest, '#'))) == |netloc|
  {
    var rest := netloc + all;
    assert forall k :: 0 <= k < |netloc| ==> rest[k] == netloc[k] && rest[k] in netloc;
    assert all != "" ==> rest[|netloc|] == all[0];
  }

  lemma PathEnds(path: string, tail: string)
    requires Nothing(tail) && '?' !in path && '#' !in path
    ensures var all := path + tail; UpTo(UpTo(all, '#'), '?') == path && Beyond(UpTo(all, '#'), '?') == "" && Beyond(all, '#') == ""
  {
    hide First, UpTo, Beyond;
    var hash, mark := tail != "" && tail[|tail| - 1] == '#', tail != "" && tail[0] == '?';
    var before := path + if mark then "?" else "";
    assert '#' !in before;
    Partitions(path, '?', "");
    Partitions(before, '#', "");
    assert path + ['?'] + "" == path + "?" && before + ['#'] + "" == before + "#";
    assert path + "" == path;
    assert path + tail == before + if hash then "#" else "";
    assert before + "" == before;
  }

  /** What decodes to a word has no character that means anything in a URL. */
  lemma {:induction false} DecodedWordIsEncoded(raw: string)
    requires PercentDecode(raw).Some? && Word(PercentDecode(raw).value)
    ensures Encoded(raw)
    decreases |raw|
  {
    if raw != "" {
      var s := PercentDecode(raw).value;
      assert WordChar(s[0]);
      if raw[0] == '%' && |raw| >= 3 && Hex(raw[1]).Some? && Hex(raw[2]).Some? {
        assert s[1..] == PercentDecode(raw[3..]).value;
        assert WordChar(raw[1]) && WordChar(raw[2]);
        DecodedWordIsEncoded(raw[3..]);
      } else {
        assert s[1..] == PercentDecode(raw[1..]).value;
        DecodedWordIsEncoded(raw[1..]);
      }
    }
  }

  /** Word characters and the delimiters of an authority. */
  predicate Plainly(s: string) { forall k :: 0 <= k < |s| ==> WordChar(s[k]) || s[k] == ':' || s[k] == '@' || s[k] == '%' }

  lemma PlainlyMeans(s: string)
    requires Plainly(s)
    ensures Safe(s) && '/' !in s && '?' !in s && '#' !in s && '[' !in s && ']' !in s
    ensures forall c :: c in s ==> WordChar(c) || c == ':' || c == '@' || c == '%'
  {
  }

  lemma DigitsAreWord(digits: string)
    requires AllDigits(digits)
    ensures Word(digits) && '@' !in digits && ':' !in digits
  {
  }

  lemma PartsArePlain(user: string, raw: string, digits: string)
    requires Word(user) && Encoded(raw) && Word(digits)
    ensures Plainly(user + ":" + raw + "@127.0.0.1:" + digits) && Plainly("127.0.0.1:" + digits)
  {
    assert Plainly(user) && Plainly(raw) && Plainly(digits) && Plainly(":") && Plainly("@127.0.0.1:") && Plainly("127.0.0.1:");
    hide Word, Encoded;
  }

  lemma NetlocOf(lib: Library, user: string, raw: string, digits: string)
    requires Word(user) && Encoded(raw) && AllDigits(digits)
    ensures var netloc := user + ":" + raw + "@127.0.0.1:" + digits;
            && Plainly(netloc) && !SplitRaises(lib, netloc)
            && SplitAuthority(netloc) == Authority(Some(user), Some(raw), "127.0.0.1", Some(digits))
  {
    hide SplitAuthority, SplitRaises, Plainly, Encoded;
    var netloc, host := user + ":" + raw + "@127.0.0.1:" + digits, "127.0.0.1";
    DigitsAreWord(digits);
    PartsArePlain(user, raw, digits);
    PlainlyMeans(netloc);
    PlainNetloc(lib, netloc);
    WordExcludes(user, ':');
    assert ':' !in host && '@' !in host + [':'] + digits;
    assert user + [':'] + raw + ['@'] + (host + [':'] + digits) == netloc by { JoinsBack(user, raw, digits); }
    AuthorityParts(user, raw, host, digits);
  }

  lemma JoinsBack(user: string, raw: string, digits: string)
    ensures user + [':'] + raw + ['@'] + ("127.0.0.1" + [':'] + digits) == user + ":" + raw + "@127.0.0.1:" + digits
  {
    assert ['@'] + ("127.0.0.1" + [':'] + digits) == "@127.0.0.1:" + digits;
  }

  lemma NothingIsSafe(tail: string)
    requires Nothing(tail)
    ensures Safe(tail)
  {
  }

  /** Opening a URL made of a scheme, a plain authority, a path and empty marks. */
  lemma Opens(lib: Library, scheme: string, netloc: string, path: string, tail: string)
    requires Safe(scheme) && Plainly(netloc) && !SplitRaises(lib, netloc) && Nothing(tail)
    requires path == "" || (path[0] == '/' && Word(path[1..]))
    ensures Open(lib, scheme + (netloc + path + tail), scheme) == Accepted((Url(netloc, path, "", ""), SplitAuthority(netloc)))
  {
    hide SplitUrl, SplitAuthority, SplitRaises, Plainly, Nothing, Unsafe, AfterScheme;
    PlainlyMeans(netloc);
    PathIsPlain(path);
    NothingIsSafe(tail);
    UrlWithTail(netloc, path, tail);
    SchemeComesOff(scheme, netloc + path + tail);
  }

  lemma PathIsPlain(path: string)
    requires path == "" || (path[0] == '/' && Word(path[1..]))
    ensures Safe(path) && '?' !in path && '#' !in path
  {
    if path != "" {
      assert forall k :: 0 < k < |path| ==> path[k] == path[1..][k - 1] && WordChar(path[k]);
    }
  }

  lemma IdentifierIsWord(s: string)
    requires Identifier(s)
    ensures Word(s) && s != ""
  {
  }

  lemma SecretIsEncoded(raw: string, secret: string)
    requires Secret(secret) && PercentDecode(raw) == Some(secret)
    ensures Encoded(raw) && DecodeSecret(Some(raw)) == Some(secret)
  {
    SecretIsWord(secret);
    hide Secret;
    DecodedWordIsEncoded(raw);
  }

  lemma OnePathSegment(netloc: string, name: string)
    requires Word(name) && name != ""
    ensures Segment(Url(netloc, "/" + name, "", "")) == Some(name) && ("/" + name)[1..] == name
  {
    PathSegment(netloc, name);
  }

  lemma PortIs(a: Authority, digits: string, port: nat)
    requires a.host == "127.0.0.1" && a.port == Some(digits) && PortText(digits, port)
    ensures LoopbackPort(a) == Some(port)
  {
  }

  lemma DatabaseFormIsRead(lib: Library, value: string, d: DatabaseFacts, raw: string, digits: string, tail: string)
    requires DatabaseForm(value, d, raw, digits, tail)
    ensures ParseDatabaseUrl(lib, value) == Accepted(d)
  {
    hide Open, Identifier, Secret, PercentDecode, Encoded, Word, Number, AllDigits, Nothing, SplitAuthority, LoopbackPort, PortText, Segment, DecodeSecret, Safe, Plainly;
    IdentifierIsWord(d.user);
    IdentifierIsWord(d.database);
    SecretIsEncoded(raw, d.secret);
    SchemesAreSafe();
    assert AllDigits(digits) by { PortHasDigits(digits, d.port); }
    NetlocOf(lib, d.user, raw, digits);
    var netloc := d.user + ":" + raw + "@127.0.0.1:" + digits;
    OnePathSegment(netloc, d.database);
    Opens(lib, POSTGRES, netloc, "/" + d.database, tail);
    PortIs(SplitAuthority(netloc), digits, d.port);
    assert value == POSTGRES + (netloc + ("/" + d.database) + tail);
  }

  lemma PortHasDigits(digits: string, port: nat)
    requires PortText(digits, port)
    ensures AllDigits(digits)
  {
  }

  lemma RedisFormIsRead(lib: Library, value: string, r: RedisFacts, raw: string, digits: string, number: string, tail: string)
    requires RedisForm(value, r, raw, digits, number, tail)
    ensures ParseRedisUrl(lib, value) == Accepted(r)
  {
    hide Open, Secret, PercentDecode, Encoded, Word, Number, AllDigits, Nothing, SplitAuthority, LoopbackPort, PortText, Segment, DecodeSecret, Safe, Plainly;
    SecretIsEncoded(raw, r.secret);
    SchemesAreSafe();
    LoopbackIsWord();
    DigitsAreWord(number);
    assert number != "" by { SomeDigits(number); }
    assert AllDigits(digits) by { PortHasDigits(digits, r.port); }
    NetlocOf(lib, "default", raw, digits);
    var netloc := "default" + ":" + raw + "@127.0.0.1:" + digits;
    OnePathSegment(netloc, number);
    Opens(lib, REDIS, netloc, "/" + number, tail);
    PortIs(SplitAuthority(netloc), digits, r.port);
    RedisJoins(raw, digits, number, tail);
  }

  lemma SomeDigits(s: string)
    requires AllDigits(s)
    ensures s != ""
  {
  }

  lemma RedisJoins(raw: string, digits: string, number: string, tail: string)
    ensures "redis://default:" + raw + "@127.0.0.1:" + digits + "/" + number + tail ==
            REDIS + ("default" + ":" + raw + "@127.0.0.1:" + digits + ("/" + number) + tail)
  {
    assert "redis://default:" == REDIS + ("default" + ":");
  }

  lemma GrafanaFormIsRead(lib: Library, value: string, port: nat, digits: string, path: string, tail: string)
    requires GrafanaForm(value, port, digits, path, tail)
    ensures ParseGrafanaUrl(lib, value) == Accepted(port)
  {
    hide Open, Word, Number, AllDigits, Nothing, SplitAuthority, SplitRaises, LoopbackPort, PortText, Safe, Plainly;
    SchemesAreSafe();
    assert AllDigits(digits) by { PortHasDigits(digits, port); }
    BareNetloc(lib, digits);
    var netloc := "127.0.0.1:" + digits;
    assert path != "" ==> path[1..] == "";
    assert Word("") by { NoCharacters(); }
    Opens(lib, HTTP, netloc, path, tail);
    PortIs(SplitAuthority(netloc), digits, port);
    GrafanaJoins(digits, path, tail);
  }

  lemma GrafanaJoins(digits: string, path: string, tail: string)
    ensures "http://127.0.0.1:" + digits + path + tail == HTTP + ("127.0.0.1:" + digits + path + tail)
  {
    assert "http://127.0.0.1:" == HTTP + "127.0.0.1:";
  }

  lemma NoCharacters()
    ensures Word("")
  {
  }

  lemma BareNetloc(lib: Library, digits: string)
    requires AllDigits(digits)
    ensures var netloc := "127.0.0.1:" + digits;
            && Plainly(netloc) && !SplitRaises(lib, netloc)
            && SplitAuthority(netloc) == Authority(None, None, "127.0.0.1", Some(digits))
  {
    hide SplitAuthority, SplitRaises, Plainly;
    DigitsAreWord(digits);
    assert Word("") && Encoded("");
    PartsArePlain("", "", digits);
    var netloc, host := "127.0.0.1:" + digits, "127.0.0.1";
    PlainlyMeans(netloc);
    PlainNetloc(lib, netloc);
    assert host + [':'] + digits == netloc;
    assert '@' !in netloc;
    SomeDigits(digits);
    BareAuthority(host, digits);
  }

  // ------------------------------------------------------------------ exactly these

  /** The URLs that are accepted, character by character, and what is taken from them. */
  lemma DatabaseAcceptedExactlyWhen(lib: Library, value: string, d: DatabaseFacts)
    requires NoBracketedLoopback(lib)
    ensures ParseDatabaseUrl(lib, value) == Accepted(d) <==> exists raw, digits, tail :: DatabaseForm(value, d, raw, digits, tail)
  {
    hide ParseDatabaseUrl, DatabaseForm, NoBracketedLoopback;
    if ParseDatabaseUrl(lib, value) == Accepted(d) {
      var raw, digits, tail := DatabaseIsForm(lib, value);
    }
    if raw, digits, tail :| DatabaseForm(value, d, raw, digits, tail) { DatabaseFormIsRead(lib, value, d, raw, digits, tail); }
  }

  lemma RedisAcceptedExactlyWhen(lib: Library, value: string, r: RedisFacts)
    requires NoBracketedLoopback(lib)
    ensures ParseRedisUrl(lib, value) == Accepted(r) <==> exists raw, digits, number, tail :: RedisForm(value, r, raw, digits, number, tail)
  {
    hide ParseRedisUrl, RedisForm, NoBracketedLoopback;
    if ParseRedisUrl(lib, value) == Accepted(r) {
      var raw, digits, number, tail := RedisIsForm(lib, value);
    }
    if raw, digits, number, tail :| RedisForm(value, r, raw, digits, number, tail) { RedisFormIsRead(lib, value, r, raw, digits, number, tail); }
  }

  lemma GrafanaAcceptedExactlyWhen(lib: Library, value: string, port: nat)
    requires NoBracketedLoopback(lib)
    ensures ParseGrafanaUrl(lib, value) == Accepted(port) <==> exists digits, path, tail :: GrafanaForm(value, port, digits, path, tail)
  {
    hide ParseGrafanaUrl, GrafanaForm, NoBracketedLoopback;
    if ParseGrafanaUrl(lib, value) == Accepted(port) {
      var digits, path, tail := GrafanaIsForm(lib, value);
    }
    if digits, path, tail :| GrafanaForm(value, port, digits, path, tail) { GrafanaFormIsRead(lib, value, port, digits, path, tail); }
  }

  /** The grammar of names and secrets, character by character. */
  lemma GrammarsAre(s: string)
    ensures Identifier(s) <==>
            && 1 <= |s| <= 63 && s[0] != '.' && s[0] != '-'
            && forall k :: 0 <= k < |s| ==> 'a' <= s[k] <= 'z' || 'A' <= s[k] <= 'Z' || '0' <= s[k] <= '9' || s[k] == '_' || s[k] == '-' || s[k] == '.'
    ensures Secret(s) <==>
            && 41 <= |s| <= 105 && s[..9] == "tm_local_"
            && forall k :: 9 <= k < |s| ==> 'a' <= s[k] <= 'z' || 'A' <= s[k] <= 'Z' || '0' <= s[k] <= '9' || s[k] == '_' || s[k] == '-'
  {
  }

  predicate Delimits(c: char) { c == '@' || c == ':' || c == '#' || c == '?' }

  /** What is compared with its normal form: the authority without its delimiters. */
  lemma {:induction false} DelimitersGo(a: string, b: string)
    ensures WithoutDelimiters(a + b) == WithoutDelimiters(a) + WithoutDelimiters(b)
    decreases |a|
  {
    hide WithoutDelimiters;
    OneMoreLeftNone();
    if a == "" {
      assert a + b == b;
    } else {
      DelimitersGo(a[1..], b);
      OneMoreLeft(a[0], a[1..]);
      OneMoreLeft(a[0], a[1..] + b);
      assert a == [a[0]] + a[1..] && a + b == [a[0]] + (a[1..] + b);
    }
  }

  lemma OneMoreLeftNone()
    ensures WithoutDelimiters("") == ""
  {
  }

  lemma OneMoreLeft(c: char, s: string)
    ensures WithoutDelimiters([c] + s) == (if Delimits(c) then [] else [c]) + WithoutDelimiters(s)
  {
    assert ([c] + s)[1..] == s;
  }

  lemma {:induction false} OthersStay(s: string)
    ensures (forall k :: 0 <= k < |s| ==> !Delimits(s[k])) ==> WithoutDelimiters(s) == s
    ensures (forall k :: 0 <= k < |s| ==> Delimits(s[k])) ==> WithoutDelimiters(s) == ""
  {
    if s != "" {
      OthersStay(s[1..]);
      assert s == [s[0]] + s[1..];
    }
  }

  predicate Wide(s: string) { exists k :: 0 <= k < |s| && s[k] as int > 127 }

  predicate Delimited(s: string) { exists k :: 0 <= k < |s| && (Delimits(s[k]) || s[k] == '/') }

  /** When the library refuses an authority: one bracket without the other, brackets it does not
      take, or a character outside ASCII in a text whose normal form has a delimiter. */
  lemma LibraryRefusesExactlyWhen(lib: Library, netloc: string)
    ensures SplitRaises(lib, netloc) <==>
            || (('[' in netloc) != (']' in netloc))
            || ('[' in netloc && ']' in netloc && !lib.bracketsAccepted(netloc))
            || (Wide(netloc) && var n := WithoutDelimiters(netloc); lib.nfkc(n) != n && Delimited(lib.nfkc(n)))
  {
    hide WithoutDelimiters, HasDelimiter, Delimited, Ascii, Wide;
    NotAscii(netloc);
    DelimitersIn(lib.nfkc(WithoutDelimiters(netloc)));
  }

  lemma NotAscii(s: string)
    ensures !Ascii(s) <==> Wide(s)
  {
  }

  lemma DelimitersIn(s: string)
    ensures HasDelimiter(s) <==> Delimited(s)
  {
  }

  // ------------------------------------------------------------------ lines

  /** What a line is: skipped if blank or a comment; a key, an equals sign and a value; or
      malformed. */
  lemma LineIs(line: string, key: string, value: string)
    ensures EntryOf(line).Skipped? <==> (forall k :: 0 <= k < |line| ==> IsSpace(line[k])) || (line != "" && line[0] == '#')
    ensures EntryOf(line) == Assigned(key, value) <==>
            && !EntryOf(line).Skipped? && line == key + "=" + value
            && key != "" && 'A' <= key[0] <= 'Z'
            && forall k :: 0 <= k < |key| ==> 'A' <= key[k] <= 'Z' || '0' <= key[k] <= '9' || key[k] == '_'
  {
    BlankIs(line);
    if EntryOf(line) == Assigned(key, value) { AssignmentIsLine(line, key, value); }
    hide Strip, First;
    if line == key + "=" + value && KeyText(key) && !Ignored(line) { LineIsAssignment(line, key, value); }
    assert "#" <= line <==> line != "" && line[0] == '#';
  }

  lemma LineIsAssignment(line: string, key: string, value: string)
    requires line == key + "=" + value && KeyText(key) && !Ignored(line)
    ensures EntryOf(line) == Assigned(key, value)
  {
    hide Ignored;
    assert '=' !in key;
    FirstIs(key, '=', value);
    assert line == key + ['='] + value && line[..|key|] == key && line[|key| + 1..] == value;
  }

  lemma AssignmentIsLine(line: string, key: string, value: string)
    requires EntryOf(line) == Assigned(key, value)
    ensures line == key + "=" + value && KeyText(key)
  {
    hide Ignored;
    assert line == line[..|key|] + ['='] + line[|key| + 1..];
  }

  lemma BlankIs(line: string)
    ensures Strip(line) == "" <==> forall k :: 0 <= k < |line| ==> IsSpace(line[k])
  {
    hide IsSpace;
    LeftBlank(line);
    RightBlank(StripLeft(line));
  }

  lemma {:induction false} LeftBlank(s: string)
    ensures StripLeft(s) == "" <==> forall k :: 0 <= k < |s| ==> IsSpace(s[k])
    ensures StripLeft(s) == "" || !IsSpace(StripLeft(s)[0])
  {
    hide IsSpace;
    if s != "" && IsSpace(s[0]) {
      LeftBlank(s[1..]);
      assert forall k :: 0 < k < |s| ==> s[k] == s[1..][k - 1];
    }
  }

  lemma RightBlank(s: string)
    requires s == "" || !IsSpace(s[0])
    ensures StripRight(s) == "" <==> s == ""
  {
    if s != "" { StripRightKeepsTheStart(s); }
  }

  /** A line is blamed exactly if it is malformed and everything before it is in order. */
  lemma {:induction false} LineBlamedExactlyWhen(lines: seq<string>, n: nat)
    ensures Scan(lines) == Failure(InvalidConfig(AtLine(n))) <==>
            0 < n <= |lines| && Scan(lines[..n - 1]).Success? && EntryOf(lines[n - 1]).Malformed?
    decreases |lines|
  {
    hide EntryOf, Lifecycle;
    if lines != [] {
      var init := lines[..|lines| - 1];
      LineBlamedExactlyWhen(init, n);
      if 0 < n <= |init| {
        assert init[..n - 1] == lines[..n - 1];
        if EntryOf(lines[n - 1]).Malformed? && Scan(lines[..n - 1]).Success? { MalformedStops(lines, n); }
      }
    }
  }

  lemma MalformedStops(lines: seq<string>, n: nat)
    requires 0 < n <= |lines| && EntryOf(lines[n - 1]).Malformed? && Scan(lines[..n - 1]).Success?
    ensures Scan(lines) == Failure(InvalidConfig(AtLine(n)))
  {
    hide EntryOf, Lifecycle;
    assert lines[..n][..n - 1] == lines[..n - 1];
    ScanStops(lines, n);
  }

  /** A field is blamed for occurring twice exactly at its second line, with everything before in
      order. */
  lemma {:induction false} RepeatBlamedExactlyWhen(lines: seq<string>, key: string)
    ensures Scan(lines) == Failure(InvalidConfig(OnKey(key))) <==>
            exists n :: 0 < n <= |lines| && RepeatsAt(lines, key, n)
    decreases |lines|
  {
    hide EntryOf, Lifecycle;
    if lines != [] {
      var init := lines[..|lines| - 1];
      RepeatBlamedExactlyWhen(init, key);
      if n :| 0 < n <= |init| && RepeatsAt(init, key, n) {
        assert init[..n - 1] == lines[..n - 1];
        assert RepeatsAt(lines, key, n);
      }
      if n :| 0 < n <= |lines| && RepeatsAt(lines, key, n) {
        if n <= |init| {
          assert init[..n - 1] == lines[..n - 1];
          assert RepeatsAt(init, key, n);
        }
      }
      if Scan(lines) == Failure(InvalidConfig(OnKey(key))) && Scan(init).Success? { assert RepeatsAt(lines, key, |lines|); }
    }
  }

  predicate RepeatsAt(lines: seq<string>, key: string, n: nat)
    requires 0 < n <= |lines|
  {
    && Scan(lines[..n - 1]).Success? && key in Scan(lines[..n - 1]).value
    && Lifecycle(key) && EntryOf(lines[n - 1]).Assigned? && EntryOf(lines[n - 1]).key == key
  }

  /** The value of a field is what stands in its line. */
  lemma {:induction false} ValueIs(lines: seq<string>, k: nat)
    requires k < |lines| && Scan(lines).Success? && EntryOf(lines[k]).Assigned? && Lifecycle(EntryOf(lines[k]).key)
    ensures EntryOf(lines[k]).key in Scan(lines).value && Scan(lines).value[EntryOf(lines[k]).key] == EntryOf(lines[k]).value
    decreases |lines|
  {
    hide EntryOf, Lifecycle;
    var init := lines[..|lines| - 1];
    if k < |init| {
      assert init[k] == lines[k];
      ValueIs(init, k);
    }
  }

  /** In lines that scan, the mode is a field like any other. */
  lemma {:induction false} ModeIsAField(lines: seq<string>)
    requires Scan(lines).Success?
    ensures ModeValues(lines) == if "MODE" in Scan(lines).value then [Scan(lines).value["MODE"]] else []
  {
    if lines != [] {
      var init, last := lines[..|lines| - 1], lines[|lines| - 1];
      ModeIsAField(init);
      ModeLineIs(last);
      hide EntryOf, Ignored, AfterEquals;
      assert Lifecycle("MODE");
    }
  }

  lemma ModeLineIs(line: string)
    ensures !Ignored(line) && "MODE=" <= line <==> EntryOf(line).Assigned? && EntryOf(line).key == "MODE"
    ensures !Ignored(line) && "MODE=" <= line ==> AfterEquals(line) == EntryOf(line).value
  {
    if !Ignored(line) && "MODE=" <= line {
      var value := line[5..];
      assert line == "MODE" + ['='] + value;
      FirstIs("MODE", '=', value);
      assert line[..4] == "MODE";
      assert KeyText("MODE");
    }
    hide Ignored;
    if EntryOf(line).Assigned? && EntryOf(line).key == "MODE" {
      assert First(line, '=') == 4 && line[..4] == "MODE" && line[4] == '=';
      assert line[..5] == "MODE" + "=";
    }
  }

  // ------------------------------------------------------------------ whole texts

  /** The texts that are accepted, character by character, and as what: lines that scan, the mode
      `local`, the three URLs in one of their forms, a secret, and three different ports. */
  lemma AcceptedExactlyWhen(lib: Library, text: string, c: Configuration)
    requires NoBracketedLoopback(lib)
    ensures Parse(lib, text) == Success(c) <==>
            var lines := Lines(text);
            && Scan(lines).Success? && TextOf(lines, Mode) == "local"
            && (exists raw, digits, tail :: DatabaseForm(TextOf(lines, DatabaseUrl), c.database, raw, digits, tail))
            && (exists raw, digits, number, tail :: RedisForm(TextOf(lines, RedisUrl), c.redis, raw, digits, number, tail))
            && (exists digits, path, tail :: GrafanaForm(TextOf(lines, GrafanaUrl), c.grafanaPort, digits, path, tail))
            && TextOf(lines, GrafanaAdminPassword) == c.adminPassword && Secret(c.adminPassword)
            && c.database.port != c.redis.port && c.database.port != c.grafanaPort && c.redis.port != c.grafanaPort
  {
    var lines := Lines(text);
    DatabaseAcceptedExactlyWhen(lib, TextOf(lines, DatabaseUrl), c.database);
    RedisAcceptedExactlyWhen(lib, TextOf(lines, RedisUrl), c.redis);
    GrafanaAcceptedExactlyWhen(lib, TextOf(lines, GrafanaUrl), c.grafanaPort);
    EmptyIsNoUrl(lib);
    ParsesAs(lib, text, c);
    hide Parse, TextOf, Lines, Scan, DatabaseForm, RedisForm, GrafanaForm, Secret, ParseDatabaseUrl, ParseRedisUrl, ParseGrafanaUrl, NoBracketedLoopback;
  }

  lemma EmptyIsNoUrl(lib: Library)
    ensures !ParseDatabaseUrl(lib, "").Accepted? && !ParseRedisUrl(lib, "").Accepted? && !ParseGrafanaUrl(lib, "").Accepted? && !Secret("")
  {
    assert AfterScheme("", POSTGRES).None? && AfterScheme("", REDIS).None? && AfterScheme("", HTTP).None?;
  }

  lemma ParsesAs(lib: Library, text: string, c: Configuration)
    ensures Parse(lib, text) == Success(c) <==>
            var lines := Lines(text);
            && Scan(lines).Success? && TextOf(lines, Mode) == "local"
            && ParseDatabaseUrl(lib, TextOf(lines, DatabaseUrl)) == Accepted(c.database)
            && ParseRedisUrl(lib, TextOf(lines, RedisUrl)) == Accepted(c.redis)
            && ParseGrafanaUrl(lib, TextOf(lines, GrafanaUrl)) == Accepted(c.grafanaPort)
            && TextOf(lines, GrafanaAdminPassword) == c.adminPassword && Secret(c.adminPassword)
            && c.database.port != c.redis.port && c.database.port != c.grafanaPort && c.redis.port != c.grafanaPort
  {
    hide Lines, Scan, ModeValues, ParseDatabaseUrl, ParseRedisUrl, ParseGrafanaUrl, Secret;
    var lines := Lines(text);
    EmptyIsNoUrl(lib);
    if Scan(lines).Success? {
      ModeIsAField(lines);
      assert forall f :: Required(Scan(lines).value, f) == if TextOf(lines, f) == "" then None else Some(TextOf(lines, f));
    }
  }

  /** What a file is blamed on when its lines and mode are in order: the first field without a
      value; then the first with a value that is refused; then the first two that share a port. */
  lemma BlameIs(lib: Library, text: string)
    requires Scan(Lines(text)).Success? && TextOf(Lines(text), Mode) == "local"
    ensures var lines := Lines(text);
            var db, redis, grafana, admin := TextOf(lines, DatabaseUrl), TextOf(lines, RedisUrl), TextOf(lines, GrafanaUrl), TextOf(lines, GrafanaAdminPassword);
            var d, r, g := ParseDatabaseUrl(lib, db), ParseRedisUrl(lib, redis), ParseGrafanaUrl(lib, grafana);
            var blamed := (what: Blame) => Parse(lib, text) == Failure(InvalidConfig(what));
            var present := db != "" && redis != "" && grafana != "" && admin != "";
            && (blamed(OnKey("DATABASE_URL")) <==> db == "" || (present && d.Refused?))
            && (blamed(OnKey("REDIS_URL")) <==> (db != "" && redis == "") || (present && d.Accepted? && r.Refused?))
            && (blamed(OnKey("GRAFANA_URL")) <==>
                  (db != "" && redis != "" && grafana == "") || (present && d.Accepted? && r.Accepted? && g.Refused?))
            && (blamed(OnKey("GRAFANA_ADMIN_PASSWORD")) <==>
                  (db != "" && redis != "" && grafana != "" && admin == "") || (present && d.Accepted? && r.Accepted? && g.Accepted? && !Secret(admin)))
            && (d.Accepted? && r.Accepted? && g.Accepted? && Secret(admin) ==>
                  && (blamed(OnPorts(DatabaseUrl, RedisUrl)) <==> d.facts.port == r.facts.port)
                  && (blamed(OnPorts(DatabaseUrl, GrafanaUrl)) <==> d.facts.port != r.facts.port && d.facts.port == g.facts)
                  && (blamed(OnPorts(RedisUrl, GrafanaUrl)) <==> d.facts.port != r.facts.port && d.facts.port != g.facts && r.facts.port == g.facts))
  {
    hide Lines, Scan, ModeValues, ParseDatabaseUrl, ParseRedisUrl, ParseGrafanaUrl, Secret;
    var lines := Lines(text);
    EmptyIsNoUrl(lib);
    ModeIsAField(lines);
    assert forall f :: Required(Scan(lines).value, f) == if TextOf(lines, f) == "" then None else Some(TextOf(lines, f));
    FieldNamesDiffer();
  }

  lemma FieldNamesDiffer()
    ensures |"DATABASE_URL"| == 12 && |"REDIS_URL"| == 9 && |"GRAFANA_URL"| == 11 && |"GRAFANA_ADMIN_PASSWORD"| == 22
  {
  }
}
