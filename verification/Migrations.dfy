/** The migration check against a throw-away PostgreSQL: when its final server counts as ready,
    and the isolated database each migration owner gets. */
module Migrations {
  import opened Text
  import opened Wrappers

  // ------------------------------------------------------------------ stable readiness

  /** What one turn of the wait sees: the clock at its start, and what the container, its log
      and a probe would answer if asked. */
  datatype Look = Look(now: real, running: bool, marker: bool, sql: bool)

  datatype Waited = Ready | Exited | TimedOut | BadArgument

  /** Every turn up to and including `n` began in time and found the container running. */
  predicate Reached(looks: seq<Look>, deadline: real, n: int)
    requires n < |looks|
  {
    forall i :: 0 <= i <= n ==> looks[i].now < deadline && looks[i].running
  }

  /** The log has shown the end of initialisation by turn `i`. */
  predicate Marked(looks: seq<Look>, i: int)
    requires i < |looks|
  {
    exists j :: 0 <= j <= i && looks[j].marker
  }

  /** A successful probe after the marker. */
  predicate Good(looks: seq<Look>, i: int)
    requires 0 <= i < |looks|
  {
    Marked(looks, i) && looks[i].sql
  }

  /** The last `successes` turns up to `n` all probed the final server and succeeded. */
  predicate StableAt(looks: seq<Look>, successes: int, n: int)
    requires n < |looks|
  {
    successes <= n + 1 && forall i :: n + 1 - successes <= i <= n ==> 0 <= i && Good(looks, i)
  }

  predicate ReadyAt(looks: seq<Look>, deadline: real, successes: int, n: int)
    requires n < |looks|
  {
    Reached(looks, deadline, n) && StableAt(looks, successes, n)
  }

  /** The first turn that is not running, if nothing was stable before it. */
  predicate ExitedAt(looks: seq<Look>, deadline: real, successes: int, n: int)
    requires 0 <= n < |looks|
  {
    && Reached(looks, deadline, n - 1) && looks[n].now < deadline && !looks[n].running
    && forall m :: 0 <= m < n ==> !StableAt(looks, successes, m)
  }

  /** Exactly the last `c` turns before `n` were good. */
  predicate Streak(looks: seq<Look>, c: int, n: int)
    requires 0 <= n <= |looks|
  {
    0 <= c <= n && StableAt(looks, c, n - 1) && (c < n ==> !Good(looks, n - 1 - c))
  }

  lemma StreakGrows(looks: seq<Look>, c: int, n: int)
    requires 0 <= n < |looks| && Streak(looks, c, n)
    ensures if Good(looks, n) then Streak(looks, c + 1, n + 1) else Streak(looks, 0, n + 1)
  {
    hide Good;
  }

  lemma StreakDecides(looks: seq<Look>, c: int, n: int, successes: int)
    requires 1 <= n <= |looks| && Streak(looks, c, n)
    ensures StableAt(looks, successes, n - 1) <==> successes <= c
  {
    hide Good;
    if c < successes <= n { assert n - successes <= n - 1 - c <= n - 1; }
  }

  function Deadline(begun: real, timeout: real): real { begun + timeout }

  /** `looks` are all the turns there would be before the clock is read past the deadline;
      `turns` is how many were begun. */
  method WaitForReady(looks: seq<Look>, begun: real, timeout: real, successes: int) returns (r: Waited, turns: nat)
    ensures r.BadArgument? <==> successes < 1 || timeout < 0.0
    ensures turns <= |looks| && forall i :: 0 <= i < turns ==> looks[i].now < Deadline(begun, timeout)
    ensures r.Ready? ==> turns > 0 && ReadyAt(looks, Deadline(begun, timeout), successes, turns - 1)
    ensures !r.BadArgument? ==>
              && (r.Ready? <==> exists n :: 0 <= n < |looks| && ReadyAt(looks, Deadline(begun, timeout), successes, n))
              && (r.Exited? <==> exists n :: 0 <= n < |looks| && ExitedAt(looks, Deadline(begun, timeout), successes, n))
  {
    hide StableAt, Streak, Good;
    turns := 0;
    if successes < 1 || timeout < 0.0 { return BadArgument, turns; }
    var deadline := Deadline(begun, timeout);
    var consecutive, initSeen := 0, false;
    NoStreakYet(looks);
    while turns < |looks| && looks[turns].now < deadline
      invariant turns <= |looks| && Reached(looks, deadline, turns - 1)
      invariant initSeen == Marked(looks, turns - 1)
      invariant consecutive < successes && (!initSeen ==> consecutive == 0) && Streak(looks, consecutive, turns)
      invariant forall m :: 0 <= m < turns ==> !StableAt(looks, successes, m)
    {
      var look := looks[turns];
      turns := turns + 1;
      if !look.running {
        assert ExitedAt(looks, deadline, successes, turns - 1);
        return Exited, turns;
      }
      MarkerSticks(looks, turns - 1);
      GoodExactlyWhen(looks, turns - 1);
      StreakGrows(looks, consecutive, turns - 1);
      if !initSeen { initSeen := look.marker; }
      StreakDecides(looks, if initSeen && look.sql then consecutive + 1 else 0, turns, successes);
      if !initSeen {
        continue;
      }
      if look.sql {
        consecutive := consecutive + 1;
        if consecutive >= successes {
          assert ReadyAt(looks, deadline, successes, turns - 1);
          return Ready, turns;
        }
      } else {
        consecutive := 0;
      }
    }
    r := TimedOut;
  }

  lemma NoStreakYet(looks: seq<Look>)
    ensures Streak(looks, 0, 0)
  {
  }

  lemma GoodExactlyWhen(looks: seq<Look>, i: int)
    requires 0 <= i < |looks|
    ensures Good(looks, i) <==> Marked(looks, i) && looks[i].sql
  {
  }

  lemma MarkerSticks(looks: seq<Look>, i: int)
    requires 0 <= i < |looks|
    ensures Marked(looks, i) <==> Marked(looks, i - 1) || looks[i].marker
  {
  }

  /** The first server, which initialisation replaces, never counts: each of the turns that made
      it ready came after the marker. */
  lemma ReadyMeansTheFinalServer(looks: seq<Look>, deadline: real, successes: int, n: int)
    requires 0 <= n < |looks| && successes >= 1 && ReadyAt(looks, deadline, successes, n)
    ensures exists j :: 0 <= j <= n + 1 - successes && looks[j].marker
    ensures forall i :: n + 1 - successes <= i <= n ==> 0 <= i && looks[i].running && looks[i].sql && looks[i].now < deadline
  {
    assert Good(looks, n + 1 - successes);
    forall i | n + 1 - successes <= i <= n
      ensures 0 <= i && looks[i].running && looks[i].sql && looks[i].now < deadline
    {
      assert 0 <= i && Good(looks, i);
    }
  }

  // ------------------------------------------------------------------ one database per owner and run

  predicate Alphanumeric(c: char) { 'a' <= c <= 'z' || '0' <= c <= '9' }

  predicate Letter(c: char) { 'a' <= c <= 'z' }

  /** A letter, then letters, digits and underscores. */
  predicate Identifier(s: string, limit: nat) {
    0 < |s| <= limit && Letter(s[0]) && forall k :: 0 <= k < |s| ==> Alphanumeric(s[k]) || s[k] == '_'
  }

  function OnlyAlphanumeric(s: string): string {
    if s == "" then "" else (if Alphanumeric(s[0]) then [s[0]] else []) + OnlyAlphanumeric(s[1..])
  }

  predicate RunToken(t: string) { 8 <= |t| <= 16 && forall k :: 0 <= k < |t| ==> Alphanumeric(t[k]) }

  /** Runs of anything else become one underscore. */
  function Collapse(s: string, inGap: bool): string {
    if s == "" then ""
    else if Alphanumeric(s[0]) then [s[0]] + Collapse(s[1..], false)
    else (if inGap then [] else "_") + Collapse(s[1..], true)
  }

  function TrimLeft(s: string): string { if s != "" && s[0] == '_' then TrimLeft(s[1..]) else s }

  function TrimRight(s: string): string { if s != "" && s[|s| - 1] == '_' then TrimRight(s[..|s| - 1]) else s }

  const MAX_SLUG := 41
  const MAX_NAME := 63
  const PREFIX := "tm_mig_"

  /** None is the MIGRATION_INVALID error, here and below; the component is given in lower case. */
  function Slug(component: string): Option<string> {
    var slug := TrimRight(TrimLeft(Collapse(Strip(component), false)));
    if Identifier(slug, MAX_SLUG) then Some(slug) else None
  }

  function Stem(token: string): string { PREFIX + token + "_" }

  function OwnerDatabaseName(runToken: string, component: string): Option<string> {
    var token := OnlyAlphanumeric(runToken);
    var slug := Slug(component);
    if !RunToken(token) || slug.None? then None
    else
      var name := Stem(token) + slug.value;
      var cut := if |name| > MAX_NAME then TrimRight(name[..MAX_NAME]) else name;
      if !Identifier(cut, MAX_NAME) || !(Stem(token) <= cut) then None else Some(cut)
  }

  lemma {:induction false} TrimRightKeeps(s: string, n: nat)
    requires 0 < n <= |s| && s[n - 1] != '_'
    ensures s[..n] <= TrimRight(s) <= s
    decreases |s|
  {
    if s[|s| - 1] == '_' {
      TrimRightKeeps(s[..|s| - 1], n);
      assert s[..|s| - 1][..n] == s[..n];
    }
  }

  /** The two checks after the name is cut never fail: a good token and a good component always
      give a safe name that still carries the run's stem. */
  lemma NameExactlyWhen(runToken: string, component: string)
    ensures OwnerDatabaseName(runToken, component).Some? <==> RunToken(OnlyAlphanumeric(runToken)) && Slug(component).Some?
    ensures OwnerDatabaseName(runToken, component).Some? ==>
              var name := OwnerDatabaseName(runToken, component).value;
              Identifier(name, MAX_NAME) && Stem(OnlyAlphanumeric(runToken)) < name
  {
    var token := OnlyAlphanumeric(runToken);
    hide OnlyAlphanumeric, Slug, TrimRight;
    if RunToken(token) && Slug(component).Some? {
      SlugIsIdentifier(component);
      NameFits(token, Slug(component).value);
    }
  }

  lemma SlugIsIdentifier(component: string)
    ensures Slug(component).Some? ==> Identifier(Slug(component).value, MAX_SLUG)
  {
  }

  /** Cutting a long name off never reaches its stem, nor the first letter after it. */
  lemma NameFits(token: string, slug: string)
    requires RunToken(token) && Identifier(slug, MAX_SLUG)
    ensures var name := Stem(token) + slug;
            var cut := if |name| > MAX_NAME then TrimRight(name[..MAX_NAME]) else name;
            Identifier(cut, MAX_NAME) && Stem(token) < cut
  {
    hide TrimRight;
    var name := Stem(token) + slug;
    var n := |Stem(token)| + 1;
    assert name[n - 1] == slug[0];
    if |name| > MAX_NAME {
      var cut := name[..MAX_NAME];
      TrimRightKeeps(cut, n);
      assert cut[..n] == Stem(token) + [slug[0]];
      assert Stem(token) <= cut[..n];
    }
  }

  /** A stem ends at the first underscore after the prefix. */
  lemma StemsDiffer(t: string, u: string, a: string, b: string)
    requires RunToken(t) && RunToken(u) && t != u && Stem(t) <= a && Stem(u) <= b
    ensures a != b
  {
    hide PREFIX;
    var n := |PREFIX|;
    assert forall k :: 0 <= k < |t| ==> Stem(t)[n + k] == t[k] == a[n + k];
    assert forall k :: 0 <= k < |u| ==> Stem(u)[n + k] == u[k] == b[n + k];
    assert a[n + |t|] == Stem(t)[n + |t|] == '_' && b[n + |u|] == Stem(u)[n + |u|] == '_';
    assert |t| < |u| ==> Alphanumeric(u[|t|]) && u[|t|] == b[n + |t|];
    assert |u| < |t| ==> Alphanumeric(t[|u|]) && t[|u|] == a[n + |u|];
  }

  /** Two runs never share a database, whatever their owners are called. */
  lemma RunsNeverShareADatabase(run: string, other: string, component: string, otherComponent: string)
    requires OwnerDatabaseName(run, component).Some? && OwnerDatabaseName(other, otherComponent).Some?
    requires OnlyAlphanumeric(run) != OnlyAlphanumeric(other)
    ensures OwnerDatabaseName(run, component) != OwnerDatabaseName(other, otherComponent)
  {
    NameExactlyWhen(run, component);
    NameExactlyWhen(other, otherComponent);
    hide OwnerDatabaseName, Identifier, OnlyAlphanumeric, Stem;
    StemsDiffer(OnlyAlphanumeric(run), OnlyAlphanumeric(other),
                OwnerDatabaseName(run, component).value, OwnerDatabaseName(other, otherComponent).value);
  }

  // ------------------------------------------------------------------ what a slug is made of

  /** The maximal runs of letters and digits, in order; `word` is the run so far. */
  function Words(s: string, word: string): seq<string> {
    if s == "" then (if word == "" then [] else [word])
    else if Alphanumeric(s[0]) then Words(s[1..], word + [s[0]])
    else (if word == "" then [] else [word]) + Words(s[1..], "")
  }

  /** Each word after an underscore. */
  function Underscored(words: seq<string>): string { if words == [] then "" else "_" + words[0] + Underscored(words[1..]) }

  function Joined(words: seq<string>): string { if words == [] then "" else words[0] + Underscored(words[1..]) }

  predicate EndsInGap(s: string) { s != "" && !Alphanumeric(s[|s| - 1]) }

  function GapAfter(s: string): string { if EndsInGap(s) then "_" else "" }

  lemma EndOfRest(s: string)
    requires s != ""
    ensures EndsInGap(s) <==> if |s| == 1 then !Alphanumeric(s[0]) else EndsInGap(s[1..])
  {
  }

  /** Collapsing keeps the words and puts one underscore for each gap, here with `word` begun. */
  lemma {:induction false} WordJoins(s: string, word: string)
    requires word != ""
    ensures word + Collapse(s, false) == Joined(Words(s, word)) + GapAfter(s)
    decreases |s|
  {
    hide Joined;
    JoinedAfter(word, []);
    assert [word] + [] == [word];
    if s == "" {
      assert word + "" == word;
    } else {
      var rest := s[1..];
      EndOfRest(s);
      if Alphanumeric(s[0]) {
        WordJoins(rest, word + [s[0]]);
        assert word + ([s[0]] + Collapse(rest, false)) == word + [s[0]] + Collapse(rest, false);
      } else {
        GapJoins(rest);
        NoWords(rest);
        JoinedAfter(word, Words(rest, ""));
        JoinedNone();
        var joined, gap := Joined(Words(rest, "")), if Words(rest, "") == [] then "" else GapAfter(rest);
        assert word + ("_" + (joined + gap)) == word + ("_" + joined) + gap;
      }
    }
  }

  /** Inside a gap nothing has to be put before the next word. */
  lemma {:induction false} GapJoins(s: string)
    ensures Collapse(s, true) == Joined(Words(s, "")) + (if Words(s, "") == [] then "" else GapAfter(s))
    decreases |s|
  {
    hide Joined;
    JoinedNone();
    if s != "" {
      var rest := s[1..];
      EndOfRest(s);
      if Alphanumeric(s[0]) {
        WordJoins(rest, [s[0]]);
        NoWordsLost(rest, [s[0]]);
        assert "" + [s[0]] == [s[0]];
      } else {
        GapJoins(rest);
        assert [] + Words(rest, "") == Words(rest, "");
        assert "" + Collapse(rest, true) == Collapse(rest, true);
      }
    }
  }

  lemma JoinedNone()
    ensures Joined([]) == ""
  {
  }

  lemma JoinedAfter(word: string, words: seq<string>)
    ensures Joined([word] + words) == word + (if words == [] then "" else "_" + Joined(words))
  {
    assert ([word] + words)[1..] == words;
    if words != [] { assert Underscored(words) == "_" + (words[0] + Underscored(words[1..])); }
  }

  lemma {:induction false} NoWordsLost(s: string, word: string)
    requires word != ""
    ensures Words(s, word) != []
    decreases |s|
  {
    if s != "" && Alphanumeric(s[0]) { NoWordsLost(s[1..], word + [s[0]]); }
  }

  /** Without words there is nothing but a gap. */
  lemma {:induction false} NoWords(s: string)
    ensures Words(s, "") == [] && s != "" ==> EndsInGap(s)
    decreases |s|
  {
    if s != "" {
      if Alphanumeric(s[0]) { NoWordsLost(s[1..], "" + [s[0]]); } else { NoWords(s[1..]); }
    }
  }

  lemma {:induction false} WordsAreWords(s: string, word: string)
    requires forall k :: 0 <= k < |word| ==> Alphanumeric(word[k])
    ensures forall i :: 0 <= i < |Words(s, word)| ==> Words(s, word)[i] != "" && forall k :: 0 <= k < |Words(s, word)[i]| ==> Alphanumeric(Words(s, word)[i][k])
    decreases |s|
  {
    if s != "" {
      if Alphanumeric(s[0]) { WordsAreWords(s[1..], word + [s[0]]); } else { WordsAreWords(s[1..], ""); }
    }
  }

  lemma {:induction false} JoinedEnds(words: seq<string>)
    requires words != [] && forall i :: 0 <= i < |words| ==> words[i] != "" && forall k :: 0 <= k < |words[i]| ==> Alphanumeric(words[i][k])
    ensures Joined(words) != "" && Alphanumeric(Joined(words)[0]) && Alphanumeric(Joined(words)[|Joined(words)| - 1])
    decreases |words|
  {
    JoinedAfter(words[0], words[1..]);
    assert words == [words[0]] + words[1..];
    if |words| > 1 {
      JoinedEnds(words[1..]);
      var rest := Joined(words[1..]);
      assert Joined(words) == words[0] + ("_" + rest);
      assert Joined(words)[|Joined(words)| - 1] == rest[|rest| - 1];
    } else {
      assert Joined(words) == words[0];
    }
  }

  /** Trimming takes the outer underscores off and nothing else. */
  lemma TrimmedWords(joined: string, front: bool, back: bool)
    requires joined != "" ==> Alphanumeric(joined[0]) && Alphanumeric(joined[|joined| - 1])
    requires joined == "" ==> !back
    ensures TrimRight(TrimLeft((if front then "_" else "") + (joined + if back then "_" else ""))) == joined
  {
    var tail := joined + if back then "_" else "";
    TrimsLeft(tail, front);
    TrimsRight(joined, back);
  }

  lemma TrimsLeft(s: string, front: bool)
    requires s != "" ==> s[0] != '_'
    ensures TrimLeft((if front then "_" else "") + s) == s
  {
    assert "" + s == s && ("_" + s)[1..] == s;
  }

  lemma TrimsRight(s: string, back: bool)
    requires s != "" ==> s[|s| - 1] != '_'
    ensures TrimRight(s + if back then "_" else "") == s
  {
    assert s + "" == s && (s + "_")[..|s|] == s;
  }

  predicate StartsInGap(s: string) { s != "" && !Alphanumeric(s[0]) }

  lemma CollapsedSlug(s: string)
    ensures Collapse(s, false) == (if StartsInGap(s) then "_" else "") + (Joined(Words(s, "")) + (if Words(s, "") == [] then "" else GapAfter(s)))
  {
    hide Joined;
    JoinedNone();
    if s != "" {
      var rest := s[1..];
      EndOfRest(s);
      if Alphanumeric(s[0]) {
        WordJoins(rest, [s[0]]);
        NoWordsLost(rest, [s[0]]);
        assert "" + [s[0]] == [s[0]];
      } else {
        GapJoins(rest);
        assert [] + Words(rest, "") == Words(rest, "");
      }
    }
  }

  /** The slug of a component is its words joined by single underscores, if that is an identifier
      short enough; what stands between the words, and around them, makes no difference. */
  lemma SlugExactly(component: string)
    ensures var joined := Joined(Words(Strip(component), ""));
            Slug(component) == if Identifier(joined, 41) then Some(joined) else None
  {
    hide Strip, TrimLeft, TrimRight, Collapse, Words, Joined, Identifier;
    var s := Strip(component);
    var words := Words(s, "");
    WordsAreWords(s, "");
    JoinedNone();
    if words != [] { JoinedEnds(words); }
    CollapsedSlug(s);
    TrimmedWords(Joined(words), StartsInGap(s), words != [] && EndsInGap(s));
  }

  /** A run token keeps its letters and digits in order, and nothing else. */
  lemma {:induction false} TokenIs(a: string, b: string)
    ensures OnlyAlphanumeric(a + b) == OnlyAlphanumeric(a) + OnlyAlphanumeric(b)
    decreases |a|
  {
    hide OnlyAlphanumeric;
    OneMoreInTokenNone();
    if a == "" {
      assert a + b == b;
    } else {
      TokenIs(a[1..], b);
      OneMoreInToken(a[0], a[1..]);
      OneMoreInToken(a[0], a[1..] + b);
      assert a == [a[0]] + a[1..] && a + b == [a[0]] + (a[1..] + b);
    }
  }

  lemma OneMoreInTokenNone()
    ensures OnlyAlphanumeric("") == ""
  {
  }

  lemma OneMoreInToken(c: char, s: string)
    ensures OnlyAlphanumeric([c] + s) == (if Alphanumeric(c) then [c] else []) + OnlyAlphanumeric(s)
  {
    assert ([c] + s)[1..] == s;
  }

  lemma {:induction false} TokenKeeps(a: string)
    ensures (forall k :: 0 <= k < |a| ==> Alphanumeric(a[k])) ==> OnlyAlphanumeric(a) == a
    ensures (forall k :: 0 <= k < |a| ==> !Alphanumeric(a[k])) ==> OnlyAlphanumeric(a) == ""
    decreases |a|
  {
    if a != "" {
      TokenKeeps(a[1..]);
      assert a == [a[0]] + a[1..];
    }
  }

  /** The grammar of names and run tokens, character by character. */
  lemma GrammarsAre(s: string, limit: nat)
    ensures Identifier(s, limit) <==>
            && 1 <= |s| <= limit && 'a' <= s[0] <= 'z'
            && forall k :: 0 <= k < |s| ==> 'a' <= s[k] <= 'z' || '0' <= s[k] <= '9' || s[k] == '_'
    ensures RunToken(s) <==> 8 <= |s| <= 16 && forall k :: 0 <= k < |s| ==> 'a' <= s[k] <= 'z' || '0' <= s[k] <= '9'
  {
  }

  /** The name spelled out, when it needs no cut. */
  lemma ShortNameIs(runToken: string, component: string)
    requires OwnerDatabaseName(runToken, component).Some?
    ensures var whole := "tm_mig_" + OnlyAlphanumeric(runToken) + "_" + Joined(Words(Strip(component), ""));
            var name := OwnerDatabaseName(runToken, component).value;
            && (|whole| <= 63 ==> name == whole)
            && (|whole| > 63 ==> name == TrimRight(whole[..63]))
  {
    SlugExactly(component);
    hide OnlyAlphanumeric, Strip, Words, Joined, TrimRight, Identifier;
  }

  predicate AllDistinct(names: seq<string>) {
    forall i, j :: 0 <= i < j < |names| ==> names[i] != names[j]
  }

  /** Databases for all owners in order, or an error: all of them named, no two alike. */
  method PlanOwnerDatabases(owners: seq<string>, runToken: string) returns (planned: Option<seq<string>>)
    ensures planned.Some? ==>
              && |planned.value| == |owners| && AllDistinct(planned.value)
              && forall k :: 0 <= k < |owners| ==> Some(planned.value[k]) == OwnerDatabaseName(runToken, owners[k])
    ensures planned.None? <==>
              || owners == []
              || (exists k :: 0 <= k < |owners| && OwnerDatabaseName(runToken, owners[k]).None?)
              || (exists i, j :: 0 <= i < j < |owners| && OwnerDatabaseName(runToken, owners[i]) == OwnerDatabaseName(runToken, owners[j]))
  {
    hide OwnerDatabaseName, Strip;
    if owners == [] { return None; }
    var names, seen := [], {};
    for k := 0 to |owners|
      invariant |names| == k && AllDistinct(names)
      invariant forall i :: 0 <= i < k ==> Some(names[i]) == OwnerDatabaseName(runToken, owners[i])
      invariant forall name :: name in seen <==> name in names
    {
      if Strip(owners[k]) == "" {
        BlankHasNoName(runToken, owners[k]);
        return None;
      }
      var name := OwnerDatabaseName(runToken, owners[k]);
      if name.None? { return None; }
      if name.value in seen {
        var i :| 0 <= i < k && names[i] == name.value;
        assert OwnerDatabaseName(runToken, owners[i]) == OwnerDatabaseName(runToken, owners[k]);
        return None;
      }
      seen := seen + {name.value};
      names := names + [name.value];
    }
    forall i, j | 0 <= i < j < |owners|
      ensures OwnerDatabaseName(runToken, owners[i]) != OwnerDatabaseName(runToken, owners[j])
    {
      assert names[i] != names[j];
    }
    planned := Some(names);
  }

  lemma BlankHasNoName(runToken: string, component: string)
    requires Strip(component) == ""
    ensures OwnerDatabaseName(runToken, component).None?
  {
  }
}
