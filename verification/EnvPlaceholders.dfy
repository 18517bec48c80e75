/** Environment placeholders `{{env.NAME}}` and `{{env.NAME:default}}` in configuration text
    (config/env.rs). Texts are sequences of characters; every delimiter is ASCII, so positions
    in characters and in bytes cut the text at the same places. */
module EnvPlaceholders {
  import opened Primitives
  import opened Wrappers

  const OPEN := "{{"
  const CLOSE := "}}"
  const ENV_PREFIX := "env."

  /** What std::env::var says about a name. */
  datatype EnvVar = NotPresent | NotUnicode | Present(value: string)

  type Env = string -> EnvVar

  datatype EnvError =
    | MissingName
    | BadNameStart
    | Unclosed
    | Malformed(snippet: string)
    | NotValidUnicode(name: string)
    | NotSet(name: string)

  datatype Placeholder = Placeholder(end: nat, name: string, fallback: Option<string>)

  datatype OpenParse = NotOurs | Found(ph: Placeholder)

  // ---------- characters ----------

  predicate IsWs(c: char) {
    c == ' ' || c == '\t'
  }

  predicate IsIdentStart(c: char) {
    'a' <= c <= 'z' || 'A' <= c <= 'Z' || c == '_'
  }

  predicate IsIdentContinue(c: char) {
    IsIdentStart(c) || '0' <= c <= '9'
  }

  function TrimStart(s: string): string {
    if s != "" && IsSpace(s[0]) then TrimStart(s[1..]) else s
  }

  function TrimEnd(s: string): string {
    if s != "" && IsSpace(s[|s| - 1]) then TrimEnd(s[..|s| - 1]) else s
  }

  function Trim(s: string): string {
    TrimEnd(TrimStart(s))
  }

  predicate StartsAt(s: string, i: nat, what: string) {
    i + |what| <= |s| && s[i..i + |what|] == what
  }

  // ---------- scanning, by position ----------

  function SkipWs(s: string, i: nat): (j: nat)
    requires i <= |s|
    ensures i <= j <= |s| && (j < |s| ==> !IsWs(s[j])) && forall k :: i <= k < j ==> IsWs(s[k])
    decreases |s| - i
  {
    if i < |s| && IsWs(s[i]) then SkipWs(s, i + 1) else i
  }

  function IdentEnd(s: string, i: nat): (j: nat)
    requires i <= |s|
    ensures i <= j <= |s| && (j < |s| ==> !IsIdentContinue(s[j])) && forall k :: i <= k < j ==> IsIdentContinue(s[k])
    decreases |s| - i
  {
    if i < |s| && IsIdentContinue(s[i]) then IdentEnd(s, i + 1) else i
  }

  /** The first closing mark at or after `i`. */
  function FindClose(s: string, i: nat): (r: Option<nat>)
    requires i <= |s|
    ensures r.Some? ==> i <= r.value && StartsAt(s, r.value, CLOSE)
    ensures r.Some? ==> forall k :: i <= k < r.value ==> !StartsAt(s, k, CLOSE)
    ensures r.None? ==> forall k :: i <= k ==> !StartsAt(s, k, CLOSE)
    decreases |s| - i
  {
    if StartsAt(s, i, CLOSE) then Some(i)
    else if i < |s| then FindClose(s, i + 1)
    else None
  }

  /** parse_ident: the end of the name, or the complaint about a leading digit. */
  function ParseIdent(s: string, i: nat): Result<nat, EnvError>
    requires i <= |s|
    ensures ParseIdent(s, i).Ok? ==> i <= ParseIdent(s, i).value <= |s|
  {
    if i == |s| then Ok(i)
    else if !IsIdentStart(s[i]) then if IsIdentContinue(s[i]) then Err(BadNameStart) else Ok(i)
    else Ok(IdentEnd(s, i + 1))
  }

  /** The text a complaint shows: up to the closing mark, or the first 48 characters. */
  function Snippet(s: string, start: nat): string
    requires start <= |s|
  {
    var rest := s[start..];
    match FindClose(rest, 0)
    case Some(e) => rest[..e + 2]
    case None => rest[..if |rest| <= 48 then |rest| else 48]
  }

  /** parse_open at an opening mark. */
  function ParseOpen(s: string, start: nat): (r: Result<OpenParse, EnvError>)
    requires StartsAt(s, start, OPEN)
    ensures r.Ok? && r.value.Found? ==> start + 2 < r.value.ph.end <= |s|
  {
    var i0 := SkipWs(s, start + 2);
    if !StartsAt(s, i0, ENV_PREFIX) then Ok(NotOurs)
    else
      match ParseIdent(s, i0 + 4)
      case Err(e) => Err(e)
      case Ok(i1) =>
        if i1 == i0 + 4 then Err(MissingName)
        else ParseRest(s, start, s[i0 + 4..i1], SkipWs(s, i1))
  }

  /** parse_open after the name and the white space behind it. */
  function ParseRest(s: string, start: nat, name: string, i: nat): (r: Result<OpenParse, EnvError>)
    requires start <= i <= |s|
    ensures r.Ok? ==> r.value.Found? && i + 2 <= r.value.ph.end <= |s|
  {
    if i < |s| && s[i] == ':' then
      match FindClose(s, i + 1)
      case None => Err(Unclosed)
      case Some(close) => Ok(Found(Placeholder(close + 2, name, Some(Trim(s[i + 1..close])))))
    else if StartsAt(s, i, CLOSE) then Ok(Found(Placeholder(i + 2, name, None)))
    else if FindClose(s, i).None? then Err(Unclosed)
    else Err(Malformed(Snippet(s, start)))
  }

  /** The value a placeholder stands for: a set and non-empty variable, else the default. */
  function Resolve(env: Env, name: string, fallback: Option<string>): Result<string, EnvError> {
    match env(name)
    case NotUnicode => Err(NotValidUnicode(name))
    case Present(v) => if v != "" then Ok(v) else OrDefault(name, fallback)
    case NotPresent => OrDefault(name, fallback)
  }

  function OrDefault(name: string, fallback: Option<string>): Result<string, EnvError> {
    match fallback case Some(d) => Ok(d) case None => Err(NotSet(name))
  }

  /** What expansion makes of the text from `i` on. */
  function Expanded(s: string, i: nat, env: Env): Result<string, EnvError>
    requires i <= |s|
    decreases |s| - i
  {
    if i == |s| then Ok("")
    else if !StartsAt(s, i, OPEN) then Prefixed(s[i..i + 1], Expanded(s, i + 1, env))
    else
      match ParseOpen(s, i)
      case Err(e) => Err(e)
      case Ok(NotOurs) => Prefixed(s[i..i + 1], Expanded(s, i + 1, env))
      case Ok(Found(ph)) =>
        match Resolve(env, ph.name, ph.fallback)
        case Err(e) => Err(e)
        case Ok(v) => Prefixed(v, Expanded(s, ph.end, env))
  }

  function Prefixed(a: string, r: Result<string, EnvError>): Result<string, EnvError> {
    match r case Ok(b) => Ok(a + b) case Err(e) => Err(e)
  }

  /** Some opening mark is followed by white space and `env.`. */
  predicate IsOurs(s: string, i: nat) {
    StartsAt(s, i, OPEN) && StartsAt(s, SkipWs(s, i + 2), ENV_PREFIX)
  }

  predicate Contains(s: string) {
    exists i :: 0 <= i <= |s| && IsOurs(s, i)
  }

  // ---------- the source's loops ----------

  /** expand_env_placeholders: one pass that copies what lies between placeholders. */
  method Expand(s: string, env: Env) returns (r: Result<string, EnvError>)
    ensures r == Expanded(s, 0, env)
  {
    hide ParseOpen, Resolve;
    var hasOpen := FindOpen(s, 0);
    if hasOpen.None? {
      NothingOpensNothingChanges(s, 0, env);
      assert s[0..] == s;
      return Ok(s);
    }
    var out := "";
    var i, copyFrom := 0, 0;
    PrefixedNothing(Expanded(s, 0, env));
    assert "" + s[0..0] == "";
    while i + 1 < |s|
      invariant 0 <= copyFrom <= i <= |s|
      invariant Expanded(s, 0, env) == Prefixed(out + s[copyFrom..i], Expanded(s, i, env))
      decreases |s| - i
    {
      if s[i] == '{' && s[i + 1] == '{' {
        OpensIff(s, i);
        match ParseOpen(s, i) {
          case Err(e) => return Err(e);
          case Ok(NotOurs) =>
            CopyOne(s, copyFrom, i, out, Expanded(s, i + 1, env));
            i := i + 1;
          case Ok(Found(ph)) =>
            match Resolve(env, ph.name, ph.fallback) {
              case Err(e) => return Err(e);
              case Ok(v) =>
                ReplaceOne(s, copyFrom, i, out, ph, v, env);
                out := out + s[copyFrom..i];
                out := out + v;
            }
            copyFrom, i := ph.end, ph.end;
        }
      } else {
        OpensIff(s, i);
        CopyOne(s, copyFrom, i, out, Expanded(s, i + 1, env));
        i := i + 1;
      }
    }
    RestIsCopied(s, copyFrom, i, out, env);
    r := Ok(out + s[copyFrom..]);
  }

  lemma OpensIff(s: string, i: nat)
    requires i + 1 < |s|
    ensures StartsAt(s, i, OPEN) <==> s[i] == '{' && s[i + 1] == '{'
  {
    assert s[i..i + 2] == [s[i], s[i + 1]] && OPEN == ['{', '{'];
  }

  method FindOpen(s: string, from: nat) returns (r: Option<nat>)
    requires from <= |s|
    ensures r.Some? ==> from <= r.value && StartsAt(s, r.value, OPEN)
    ensures forall k :: from <= k < (if r.Some? then r.value else |s|) ==> !StartsAt(s, k, OPEN)
  {
    var i := from;
    while i < |s|
      invariant from <= i <= |s| && forall k :: from <= k < i ==> !StartsAt(s, k, OPEN)
    {
      if StartsAt(s, i, OPEN) {
        return Some(i);
      }
      i := i + 1;
    }
    r := None;
  }

  /** contains_env_placeholders. */
  method ContainsPlaceholders(s: string) returns (found: bool)
    ensures found <==> Contains(s)
  {
    var i := 0;
    var open := FindOpen(s, i);
    while open.Some?
      invariant 0 <= i <= |s| && (open.Some? ==> i <= open.value && StartsAt(s, open.value, OPEN))
      invariant forall k :: 0 <= k < (if open.Some? then open.value else |s|) ==> !IsOurs(s, k)
      decreases if open.Some? then |s| - open.value else -1
    {
      if StartsAt(s, SkipWs(s, open.value + 2), ENV_PREFIX) {
        assert IsOurs(s, open.value);
        return true;
      }
      i := open.value + 1;
      open := FindOpen(s, i);
    }
    found := false;
  }

  lemma PrefixedTwice(a: string, b: string, r: Result<string, EnvError>)
    ensures Prefixed(a, Prefixed(b, r)) == Prefixed(a + b, r)
  {
    if r.Ok? {
      assert a + (b + r.value) == a + b + r.value;
    }
  }

  lemma PrefixedNothing(r: Result<string, EnvError>)
    ensures Prefixed("", r) == r
  {
    if r.Ok? {
      assert "" + r.value == r.value;
    }
  }

  lemma CopyOne(s: string, copyFrom: nat, i: nat, out: string, r: Result<string, EnvError>)
    requires copyFrom <= i < |s|
    ensures Prefixed(out + s[copyFrom..i], Prefixed(s[i..i + 1], r)) == Prefixed(out + s[copyFrom..i + 1], r)
  {
    PrefixedTwice(out + s[copyFrom..i], s[i..i + 1], r);
    assert s[copyFrom..i] + s[i..i + 1] == s[copyFrom..i + 1];
    assert out + s[copyFrom..i] + s[i..i + 1] == out + s[copyFrom..i + 1];
  }

  lemma ReplaceOne(s: string, copyFrom: nat, i: nat, out: string, ph: Placeholder, v: string, env: Env)
    requires copyFrom <= i < |s| && StartsAt(s, i, OPEN) && ParseOpen(s, i) == Ok(Found(ph))
    requires Resolve(env, ph.name, ph.fallback) == Ok(v)
    ensures Prefixed(out + s[copyFrom..i], Expanded(s, i, env))
         == Prefixed(out + s[copyFrom..i] + v + s[ph.end..ph.end], Expanded(s, ph.end, env))
  {
    hide ParseOpen, Resolve;
    PrefixedTwice(out + s[copyFrom..i], v, Expanded(s, ph.end, env));
    assert out + s[copyFrom..i] + v + s[ph.end..ph.end] == out + s[copyFrom..i] + v;
  }

  lemma LastIsCopied(s: string, i: nat, env: Env)
    requires i <= |s| <= i + 1
    ensures Expanded(s, i, env) == Ok(s[i..])
  {
    if i < |s| {
      assert !StartsAt(s, i, OPEN);
      assert Expanded(s, i + 1, env) == Ok("");
      assert s[i..i + 1] + "" == s[i..];
    } else {
      assert s[i..] == "";
    }
  }

  lemma RestIsCopied(s: string, copyFrom: nat, i: nat, out: string, env: Env)
    requires copyFrom <= i <= |s| <= i + 1
    ensures Prefixed(out + s[copyFrom..i], Expanded(s, i, env)) == Ok(out + s[copyFrom..])
  {
    LastIsCopied(s, i, env);
    assert s[copyFrom..] == s[copyFrom..i] + s[i..];
    assert out + (s[copyFrom..i] + s[i..]) == out + s[copyFrom..i] + s[i..];
  }

  lemma NotOursIsCopied(s: string, i: nat, env: Env)
    requires i < |s| && !IsOurs(s, i)
    ensures Expanded(s, i, env) == Prefixed(s[i..i + 1], Expanded(s, i + 1, env))
  {
    hide SkipWs, Resolve, ParseRest, ParseIdent;
  }

  lemma OursIsReplaced(s: string, i: nat, ph: Placeholder, env: Env)
    requires i < |s| && StartsAt(s, i, OPEN) && ParseOpen(s, i) == Ok(Found(ph))
    ensures Expanded(s, i, env) ==
            match Resolve(env, ph.name, ph.fallback)
            case Err(e) => Err(e)
            case Ok(v) => Prefixed(v, Expanded(s, ph.end, env))
  {
    hide ParseOpen, Resolve, StartsAt, Prefixed;
  }

  lemma {:induction false} NothingOpensNothingChanges(s: string, i: nat, env: Env)
    requires i <= |s| && forall k :: i <= k <= |s| ==> !IsOurs(s, k)
    ensures Expanded(s, i, env) == Ok(s[i..])
    decreases |s| - i
  {
    if i < |s| {
      hide IsOurs;
      NotOursIsCopied(s, i, env);
      NothingOpensNothingChanges(s, i + 1, env);
      assert s[i..] == s[i..i + 1] + s[i + 1..];
    }
  }

  // ---------- what the scan finds ----------

  /** The scan from `i` meets something of ours: a placeholder, or a complaint about one. */
  predicate ScanFinds(s: string, i: nat)
    requires i <= |s|
    decreases |s| - i
  {
    i < |s| && (if StartsAt(s, i, OPEN) && ParseOpen(s, i) != Ok(NotOurs) then true else ScanFinds(s, i + 1))
  }

  lemma {:induction false} ScanFindsOurs(s: string, i: nat)
    requires i <= |s|
    ensures ScanFinds(s, i) <==> exists k :: i <= k <= |s| && IsOurs(s, k)
    decreases |s| - i
  {
    if i < |s| {
      ScanFindsOurs(s, i + 1);
      assert IsOurs(s, i) <==> StartsAt(s, i, OPEN) && ParseOpen(s, i) != Ok(NotOurs);
    }
  }

  /** contains_env_placeholders is false exactly when the scan finds nothing of ours, and then
      expansion gives the text back. */
  lemma ContainsIsWhatTheScanFinds(s: string, env: Env)
    ensures Contains(s) <==> ScanFinds(s, 0)
    ensures !Contains(s) ==> Expanded(s, 0, env) == Ok(s)
  {
    ScanFindsOurs(s, 0);
    if !Contains(s) {
      NothingOpensNothingChanges(s, 0, env);
      assert s[0..] == s;
    }
  }

  lemma FindCloseInRest(s: string, start: nat, i: nat)
    requires start <= i <= |s| && FindClose(s, i).Some?
    ensures FindClose(s[start..], 0).Some?
  {
    var close := FindClose(s, i).value;
    assert s[start..][close - start..close - start + 2] == s[close..close + 2];
    assert StartsAt(s[start..], close - start, CLOSE);
  }

  /** A complaint about a malformed placeholder always shows it up to its closing mark; the cut
      after 48 characters is never taken. */
  lemma SnippetEndsWithClose(s: string, start: nat)
    requires StartsAt(s, start, OPEN)
    ensures var r := ParseOpen(s, start);
            r.Err? && r.error.Malformed? ==>
              FindClose(s[start..], 0).Some? && r.error.snippet == s[start..][..FindClose(s[start..], 0).value + 2]
  {
    hide FindClose, SkipWs, Trim;
    var r := ParseOpen(s, start);
    if r.Err? && r.error.Malformed? {
      var i0 := SkipWs(s, start + 2);
      var i := SkipWs(s, ParseIdent(s, i0 + 4).value);
      assert r == ParseRest(s, start, s[i0 + 4..ParseIdent(s, i0 + 4).value], i);
      FindCloseInRest(s, start, i);
    }
  }

  // ---------- expansion undoes rendering ----------

  /** A literal, or a placeholder with white space inside and perhaps a raw default. */
  datatype Piece = Lit(text: string) | Var(before: string, name: string, after: string, raw: Option<string>)

  predicate AllWs(s: string) {
    forall c <- s :: IsWs(c)
  }

  predicate IsName(s: string) {
    s != "" && IsIdentStart(s[0]) && forall c <- s :: IsIdentContinue(c)
  }

  /** The default holds no closing mark and does not run into the one behind it. */
  predicate Closable(raw: string) {
    (forall k :: 0 <= k <= |raw| ==> !StartsAt(raw, k, CLOSE)) && (raw != "" ==> raw[|raw| - 1] != '}')
  }

  predicate ValidPiece(p: Piece) {
    match p
    case Lit(text) => !Contains(text)
    case Var(before, name, after, raw) => AllWs(before) && IsName(name) && AllWs(after) && (raw.Some? ==> Closable(raw.value))
  }

  /** Literals hold no placeholder of ours, and two of them never meet. */
  ghost predicate ValidPieces(ps: seq<Piece>) {
    && (forall i :: 0 <= i < |ps| ==> ValidPiece(ps[i]))
    && (forall i :: 0 <= i < |ps| - 1 ==> ps[i].Lit? ==> ps[i + 1].Var?)
  }

  function RawDefault(raw: Option<string>): string {
    match raw case Some(d) => ":" + d case None => ""
  }

  function RenderOne(p: Piece): string {
    match p
    case Lit(text) => text
    case Var(before, name, after, raw) => OPEN + (before + (ENV_PREFIX + (name + (after + (RawDefault(raw) + CLOSE)))))
  }

  function Render(ps: seq<Piece>): string {
    if ps == [] then "" else RenderOne(ps[0]) + Render(ps[1..])
  }

  function TrimmedDefault(raw: Option<string>): Option<string> {
    match raw case Some(d) => Some(Trim(d)) case None => None
  }

  /** One piece, with a placeholder replaced by its value, in front of the rest. */
  function Shown(p: Piece, rest: Result<string, EnvError>, env: Env): Result<string, EnvError> {
    match p
    case Lit(text) => Prefixed(text, rest)
    case Var(_, name, _, raw) =>
      match Resolve(env, name, TrimmedDefault(raw))
      case Err(e) => Err(e)
      case Ok(v) => Prefixed(v, rest)
  }

  /** The literals with each placeholder replaced by its value, once. */
  function Substituted(ps: seq<Piece>, env: Env): Result<string, EnvError> {
    if ps == [] then Ok("") else Shown(ps[0], Substituted(ps[1..], env), env)
  }

  lemma {:induction false} SkipWsIs(s: string, i: nat, j: nat)
    requires i <= j <= |s| && (j < |s| ==> !IsWs(s[j])) && forall k :: i <= k < j ==> IsWs(s[k])
    ensures SkipWs(s, i) == j
    decreases j - i
  {
    if i < j {
      SkipWsIs(s, i + 1, j);
    }
  }

  lemma {:induction false} IdentEndIs(s: string, i: nat, j: nat)
    requires i <= j <= |s| && (j < |s| ==> !IsIdentContinue(s[j])) && forall k :: i <= k < j ==> IsIdentContinue(s[k])
    ensures IdentEnd(s, i) == j
    decreases j - i
  {
    if i < j {
      IdentEndIs(s, i + 1, j);
    }
  }

  lemma FindCloseIs(s: string, i: nat, j: nat)
    requires i <= j && StartsAt(s, j, CLOSE) && forall k :: i <= k < j ==> !StartsAt(s, k, CLOSE)
    ensures FindClose(s, i) == Some(j)
  {
  }

  /** What may follow a literal: nothing, or the opening of a placeholder. */
  predicate EndsCleanly(s: string, q: nat) {
    q == |s| || StartsAt(s, q, OPEN)
  }

  lemma WithinOf(s: string, p: nat, text: string, i: nat, what: string)
    requires StartsAt(s, p, text) && p <= i && i + |what| <= p + |text|
    ensures StartsAt(s, i, what) == StartsAt(text, i - p, what)
  {
    var a, b := text[i - p..i - p + |what|], s[i..i + |what|];
    forall m | 0 <= m < |what| ensures a[m] == b[m] {
      assert s[p..p + |text|][i - p + m] == s[i + m];
    }
    assert a == b;
  }

  lemma EnvHoldsNoBrace(s: string, j: nat, q: nat)
    requires StartsAt(s, j, ENV_PREFIX) && j <= q < j + 4
    ensures s[q] != '{'
  {
    var prefix := s[j..j + 4];
    assert prefix == ['e', 'n', 'v', '.'] && prefix[q - j] == s[q];
  }

  lemma OursWithin(s: string, p: nat, text: string, k: nat)
    requires StartsAt(s, p, text) && p <= k && IsOurs(s, k) && SkipWs(s, k + 2) + 4 <= p + |text|
    ensures IsOurs(text, k - p)
  {
    var j := SkipWs(s, k + 2);
    assert forall m :: p <= m < p + |text| ==> s[m] == s[p..p + |text|][m - p];
    SkipWsIs(text, k + 2 - p, j - p);
    WithinOf(s, p, text, k, OPEN);
    WithinOf(s, p, text, j, ENV_PREFIX);
  }

  /** Inside a literal that is followed by a placeholder, or by nothing, nothing is ours. */
  lemma LiteralIsNotOurs(s: string, p: nat, text: string, k: nat)
    requires StartsAt(s, p, text) && !Contains(text) && p <= k < p + |text| && EndsCleanly(s, p + |text|)
    ensures !IsOurs(s, k)
  {
    var q := p + |text|;
    if IsOurs(s, k) {
      var j := SkipWs(s, k + 2);
      if j + 4 <= q {
        OursWithin(s, p, text, k);
      } else {
        assert s[q] == s[q..q + 2][0] == '{' && s[q + 1] == s[q..q + 2][1] == '{';
        EnvHoldsNoBrace(s, j, if j <= q then q else q + 1);
      }
    }
  }

  lemma {:induction false} LiteralIsCopied(s: string, p: nat, text: string, k: nat, env: Env)
    requires StartsAt(s, p, text) && !Contains(text) && k <= |text| && EndsCleanly(s, p + |text|)
    ensures Expanded(s, p + k, env) == Prefixed(text[k..], Expanded(s, p + |text|, env))
    decreases |text| - k
  {
    hide Expanded, IsOurs, Contains, EndsCleanly, Prefixed;
    if k == |text| {
      assert text[k..] == "";
      PrefixedNothing(Expanded(s, p + k, env));
    } else {
      LiteralIsNotOurs(s, p, text, p + k);
      NotOursIsCopied(s, p + k, env);
      LiteralIsCopied(s, p, text, k + 1, env);
      assert s[p + k] == s[p..p + |text|][k];
      assert s[p + k..p + k + 1] == [text[k]];
      PrefixedTwice([text[k]], text[k + 1..], Expanded(s, p + |text|, env));
      assert [text[k]] + text[k + 1..] == text[k..];
    }
  }

  /** A position of a text reads on as `what`: the text is `done + what + more`. */
  predicate ReadsOn(s: string, i: nat, what: string) {
    i <= |s| && what <= s[i..]
  }

  lemma ReadsOnInParts(s: string, i: nat, a: string, b: string)
    requires ReadsOn(s, i, a + b)
    ensures ReadsOn(s, i, a) && ReadsOn(s, i + |a|, b)
    ensures StartsAt(s, i, a) && StartsAt(s, i + |a|, b)
  {
    var ab := a + b;
    assert s[i..][..|ab|] == ab;
    assert s[i..i + |a|] == ab[..|a|] == a;
    assert s[i + |a|..][..|b|] == ab[|a|..] == b;
    assert s[i + |a|..i + |a| + |b|] == b;
  }

  lemma CloseIsWhereTheDefaultEnds(s: string, i: nat, raw: string)
    requires ReadsOn(s, i, raw + CLOSE) && Closable(raw)
    ensures FindClose(s, i) == Some(i + |raw|) && s[i..i + |raw|] == raw
  {
    var j := i + |raw|;
    ReadsOnInParts(s, i, raw, CLOSE);
    forall k | i <= k < j ensures !StartsAt(s, k, CLOSE) {
      if k + 2 <= j {
        WithinOf(s, i, raw, k, CLOSE);
      } else {
        assert s[k] == s[i..j][k - i] == raw[|raw| - 1];
        assert s[k..k + 2][0] == s[k];
      }
    }
    FindCloseIs(s, i, j);
  }

  /** Behind the name: the default, trimmed, and the end of the placeholder. */
  lemma ParseRestOfRendered(s: string, start: nat, name: string, i: nat, raw: Option<string>)
    requires start <= i && ReadsOn(s, i, RawDefault(raw) + CLOSE)
    requires raw.Some? ==> Closable(raw.value)
    ensures ParseRest(s, start, name, i)
         == Ok(Found(Placeholder(i + |RawDefault(raw)| + 2, name, TrimmedDefault(raw))))
  {
    match raw
    case Some(d) =>
      assert (":" + d) + CLOSE == ":" + (d + CLOSE);
      ReadsOnInParts(s, i, ":", d + CLOSE);
      assert s[i..i + 1][0] == ':';
      CloseIsWhereTheDefaultEnds(s, i + 1, d);
    case None =>
      assert "" + CLOSE == CLOSE;
      ReadsOnInParts(s, i, CLOSE, "");
      assert s[i..i + 2][0] == '}';
  }

  lemma NameIsParsed(s: string, c: nat, name: string, rest: string)
    requires IsName(name) && ReadsOn(s, c, name + rest) && rest != "" && !IsIdentContinue(rest[0])
    ensures ParseIdent(s, c) == Ok(c + |name|) && |name| > 0 && c + |name| <= |s| && s[c..c + |name|] == name
  {
    ReadsOnInParts(s, c, name, rest);
    var d := c + |name|;
    assert s[d] == s[d..][..|rest|][0];
    forall k | c <= k < d ensures s[k] in name && IsIdentContinue(s[k]) {
      assert s[k] == s[c..d][k - c];
    }
    assert s[c] == s[c..d][0];
    IdentEndIs(s, c + 1, d);
  }

  lemma WsIsSkipped(s: string, a: nat, ws: string, rest: string)
    requires AllWs(ws) && ReadsOn(s, a, ws + rest) && rest != "" && !IsWs(rest[0])
    ensures SkipWs(s, a) == a + |ws|
  {
    ReadsOnInParts(s, a, ws, rest);
    var b := a + |ws|;
    assert s[b] == s[b..][..|rest|][0];
    forall k | a <= k < b ensures IsWs(s[k]) {
      assert s[k] == s[a..b][k - a] && s[k] in ws;
    }
    SkipWsIs(s, a, b);
  }

  lemma TailStarts(after: string, raw: Option<string>)
    requires AllWs(after)
    ensures var tail := RawDefault(raw) + CLOSE; !IsWs(tail[0])
    ensures var tail := after + (RawDefault(raw) + CLOSE); tail != "" && !IsIdentContinue(tail[0])
  {
    var tail := RawDefault(raw) + CLOSE;
    assert tail[0] == ':' || tail[0] == '}';
    if after == "" {
      assert after + tail == tail;
    } else {
      assert (after + tail)[0] == after[0] && after[0] in after;
    }
  }

  lemma OpeningIsRead(s: string, i: nat, before: string, rest: string)
    requires AllWs(before) && ReadsOn(s, i, OPEN + (before + (ENV_PREFIX + rest)))
    ensures StartsAt(s, i, OPEN) && SkipWs(s, i + 2) == i + 2 + |before|
    ensures StartsAt(s, i + 2 + |before|, ENV_PREFIX) && ReadsOn(s, i + 2 + |before| + 4, rest)
  {
    hide AllWs, StartsAt, ReadsOn;
    ReadsOnInParts(s, i, OPEN, before + (ENV_PREFIX + rest));
    ReadsOnInParts(s, i + 2, before, ENV_PREFIX + rest);
    ReadsOnInParts(s, i + 2 + |before|, ENV_PREFIX, rest);
    assert (ENV_PREFIX + rest)[0] == 'e';
    WsIsSkipped(s, i + 2, before, ENV_PREFIX + rest);
  }

  lemma NameAndWsAreRead(s: string, c: nat, name: string, after: string, raw: Option<string>)
    requires IsName(name) && AllWs(after) && ReadsOn(s, c, name + (after + (RawDefault(raw) + CLOSE)))
    ensures ParseIdent(s, c) == Ok(c + |name|) && |name| > 0 && c + |name| <= |s| && s[c..c + |name|] == name
    ensures SkipWs(s, c + |name|) == c + |name| + |after| && ReadsOn(s, c + |name| + |after|, RawDefault(raw) + CLOSE)
  {
    hide AllWs, IsName, StartsAt, ReadsOn, ParseIdent, RawDefault, IsWs, IsIdentContinue;
    var tail := RawDefault(raw) + CLOSE;
    TailStarts(after, raw);
    NameIsParsed(s, c, name, after + tail);
    ReadsOnInParts(s, c, name, after + tail);
    WsIsSkipped(s, c + |name|, after, tail);
    ReadsOnInParts(s, c + |name|, after, tail);
  }

  lemma RenderedLength(p: Piece)
    requires p.Var?
    ensures |RenderOne(p)| == 2 + |p.before| + 4 + |p.name| + |p.after| + |RawDefault(p.raw)| + 2
  {
  }

  /** A rendered placeholder is parsed whole: its name, its default trimmed, and where it ends. */
  lemma RenderedIsParsed(s: string, i: nat, p: Piece)
    requires p.Var? && ValidPiece(p) && ReadsOn(s, i, RenderOne(p))
    ensures StartsAt(s, i, OPEN)
    ensures ParseOpen(s, i) == Ok(Found(Placeholder(i + |RenderOne(p)|, p.name, TrimmedDefault(p.raw))))
  {
    hide TrimmedDefault, ParseRest, ParseIdent, AllWs, IsName, Closable, SkipWs, StartsAt, ReadsOn, RawDefault;
    RenderedLength(p);
    OpeningIsRead(s, i, p.before, p.name + (p.after + (RawDefault(p.raw) + CLOSE)));
    var c := i + 2 + |p.before| + 4;
    NameAndWsAreRead(s, c, p.name, p.after, p.raw);
    ParseRestOfRendered(s, i, p.name, c + |p.name| + |p.after|, p.raw);
  }

  lemma NextOpensOrEnds(s: string, q: nat, ps: seq<Piece>)
    requires q <= |s| && s[q..] == Render(ps) && ValidPieces(ps) && (ps != [] ==> ps[0].Var?)
    ensures EndsCleanly(s, q)
  {
    if ps != [] {
      hide ParseOpen, Contains, RenderOne;
      ReadsOnInParts(s, q, RenderOne(ps[0]), Render(ps[1..]));
      RenderedIsParsed(s, q, ps[0]);
    }
  }

  lemma OnePieceExpanded(s: string, i: nat, p: Piece, env: Env)
    requires ValidPiece(p) && ReadsOn(s, i, RenderOne(p)) && StartsAt(s, i, RenderOne(p))
    requires p.Lit? ==> EndsCleanly(s, i + |RenderOne(p)|)
    ensures Expanded(s, i, env) == Shown(p, Expanded(s, i + |RenderOne(p)|, env), env)
  {
    hide EndsCleanly, Contains, ParseOpen, Resolve, Expanded, StartsAt, Prefixed, TrimmedDefault, ReadsOn;
    if p.Lit? {
      LiteralIsCopied(s, i, p.text, 0, env);
      assert p.text[0..] == p.text;
    } else {
      RenderedIsParsed(s, i, p);
      OpensInside(s, i);
      OursIsReplaced(s, i, Placeholder(i + |RenderOne(p)|, p.name, TrimmedDefault(p.raw)), env);
    }
  }

  lemma OpensInside(s: string, i: nat)
    requires StartsAt(s, i, OPEN)
    ensures i < |s|
  {
  }

  lemma FirstIsRead(s: string, i: nat, ps: seq<Piece>)
    requires i <= |s| && ps != [] && s[i..] == Render(ps) && ValidPieces(ps)
    ensures ReadsOn(s, i, RenderOne(ps[0])) && StartsAt(s, i, RenderOne(ps[0]))
    ensures var q := i + |RenderOne(ps[0])|; q <= |s| && s[q..] == Render(ps[1..])
    ensures ValidPiece(ps[0]) && ValidPieces(ps[1..]) && (ps[0].Lit? && ps[1..] != [] ==> ps[1].Var?)
  {
    hide RenderOne, ValidPiece;
    var one := RenderOne(ps[0]);
    ReadsOnInParts(s, i, one, Render(ps[1..]));
    assert s[i..][|one|..] == Render(ps[1..]);
  }

  lemma NothingRendered(s: string, i: nat, env: Env)
    requires i <= |s| && s[i..] == Render([])
    ensures Expanded(s, i, env) == Ok("")
  {
    assert |s[i..]| == 0;
  }

  lemma {:induction false} ExpandedFrom(s: string, i: nat, ps: seq<Piece>, env: Env)
    requires i <= |s| && s[i..] == Render(ps) && ValidPieces(ps)
    ensures Expanded(s, i, env) == Substituted(ps, env)
    decreases |ps|
  {
    hide ParseOpen, ValidPiece, ValidPieces, RenderOne, EndsCleanly, Shown, Expanded, ReadsOn, StartsAt, Render;
    if ps == [] {
      NothingRendered(s, i, env);
    } else {
      FirstIsRead(s, i, ps);
      var q := i + |RenderOne(ps[0])|;
      ExpandedFrom(s, q, ps[1..], env);
      if ps[0].Lit? {
        NextOpensOrEnds(s, q, ps[1..]);
      }
      OnePieceExpanded(s, i, ps[0], env);
    }
  }

  /** Expansion undoes rendering: it gives the literals with the values put in, and what a value
      holds is never looked at again. */
  lemma ExpandUndoesRender(ps: seq<Piece>, env: Env)
    requires ValidPieces(ps)
    ensures Expanded(Render(ps), 0, env) == Substituted(ps, env)
  {
    assert Render(ps)[0..] == Render(ps);
    ExpandedFrom(Render(ps), 0, ps, env);
  }

  // ---------- in plain terms ----------

  predicate Letter(c: char) {
    'a' <= c <= 'z' || 'A' <= c <= 'Z' || c == '_'
  }

  /** A letter or an underscore, and then these and digits. */
  predicate PlainName(name: string) {
    name != "" && Letter(name[0]) && forall c <- name :: Letter(c) || '0' <= c <= '9'
  }

  /** Without its white space at both ends. */
  lemma TrimMeans(s: string) returns (a: string, b: string)
    ensures s == a + Trim(s) + b && (forall c <- a :: IsSpace(c)) && forall c <- b :: IsSpace(c)
    ensures Trim(s) != "" ==> !IsSpace(Trim(s)[0]) && !IsSpace(Trim(s)[|Trim(s)| - 1])
  {
    var rest := TrimStart(s);
    a := TrimStartMeans(s);
    b := TrimEndMeans(rest);
    assert rest == Trim(s) + b;
    assert a + (Trim(s) + b) == a + Trim(s) + b;
    if Trim(s) != "" {
      assert rest[0] == Trim(s)[0];
    }
  }

  lemma {:induction false} TrimStartMeans(s: string) returns (a: string)
    ensures s == a + TrimStart(s) && (forall c <- a :: IsSpace(c))
    ensures TrimStart(s) != "" ==> !IsSpace(TrimStart(s)[0])
  {
    if s != "" && IsSpace(s[0]) {
      var rest := TrimStartMeans(s[1..]);
      a := [s[0]] + rest;
      assert s == [s[0]] + s[1..];
    } else {
      a := "";
    }
  }

  lemma {:induction false} TrimEndMeans(s: string) returns (b: string)
    ensures s == TrimEnd(s) + b && (forall c <- b :: IsSpace(c))
    ensures TrimEnd(s) != "" ==> !IsSpace(TrimEnd(s)[|TrimEnd(s)| - 1])
  {
    if s != "" && IsSpace(s[|s| - 1]) {
      var rest := TrimEndMeans(s[..|s| - 1]);
      b := rest + [s[|s| - 1]];
      assert s == s[..|s| - 1] + [s[|s| - 1]];
    } else {
      b := "";
    }
  }

  /** A placeholder alone: a variable that is set and not empty gives its value, and one that is not text
      is an error, whether there is a default or not; else the trimmed default is taken, and without
      one it is an error. */
  lemma OnePlaceholderMeans(name: string, raw: string, env: Env)
    requires raw != "" ==> raw[|raw| - 1] != '}'
    requires forall k :: 0 <= k < |raw| - 1 ==> !(raw[k] == '}' && raw[k + 1] == '}')
    requires PlainName(name)
    ensures Expanded("{{env." + name + "}}", 0, env)
         == match env(name)
            case Present(v) => if v != "" then Ok(v) else Err(NotSet(name))
            case NotPresent => Err(NotSet(name))
            case NotUnicode => Err(NotValidUnicode(name))
    ensures Expanded("{{env." + name + ":" + raw + "}}", 0, env)
         == match env(name)
            case Present(v) => if v != "" then Ok(v) else Ok(Trim(raw))
            case NotPresent => Ok(Trim(raw))
            case NotUnicode => Err(NotValidUnicode(name))
  {
    var p, q := Var("", name, "", None), Var("", name, "", Some(raw));
    BareForm(name);
    DefaultForm(name, raw);
    PlainRawIsClosable(raw);
    hide RenderOne, PlainName, Closable, Expanded, Trim;
    assert ValidPiece(p) && ValidPiece(q) by { PlainNameIsName(name); }
    RenderedAlone(p, env);
    RenderedAlone(q, env);
  }

  lemma PlainRawIsClosable(raw: string)
    requires raw != "" ==> raw[|raw| - 1] != '}'
    requires forall k :: 0 <= k < |raw| - 1 ==> !(raw[k] == '}' && raw[k + 1] == '}')
    ensures Closable(raw)
  {
    forall k | 0 <= k <= |raw| ensures !StartsAt(raw, k, CLOSE) {
      if k + 2 <= |raw| {
        assert raw[k..k + 2] == [raw[k], raw[k + 1]] && CLOSE == ['}', '}'];
      }
    }
  }

  lemma PlainNameIsName(name: string)
    requires PlainName(name)
    ensures IsName(name) && AllWs("")
  {
  }

  lemma BareForm(name: string)
    ensures RenderOne(Var("", name, "", None)) == "{{env." + name + "}}"
  {
    assert "" + ("" + CLOSE) == "}}" && "" + (ENV_PREFIX + (name + "}}")) == ENV_PREFIX + (name + "}}");
    assert OPEN + (ENV_PREFIX + (name + "}}")) == "{{env." + name + "}}";
  }

  lemma DefaultForm(name: string, raw: string)
    ensures RenderOne(Var("", name, "", Some(raw))) == "{{env." + name + ":" + raw + "}}"
  {
    var tail := (":" + raw) + CLOSE;
    assert "" + tail == tail && "" + (ENV_PREFIX + (name + tail)) == ENV_PREFIX + (name + tail);
    assert name + tail == name + ":" + raw + "}}";
    assert OPEN + (ENV_PREFIX + (name + tail)) == "{{env." + (name + tail);
    assert "{{env." + (name + ":" + raw + "}}") == "{{env." + name + ":" + raw + "}}";
  }

  lemma RenderedAlone(p: Piece, env: Env)
    requires p.Var? && ValidPiece(p)
    ensures Expanded(RenderOne(p), 0, env) == Resolve(env, p.name, TrimmedDefault(p.raw))
  {
    hide RenderOne, ValidPiece, Resolve, TrimmedDefault;
    assert ValidPieces([p]) by { assert [p][0] == p; }
    ExpandUndoesRender([p], env);
    assert Render([p]) == RenderOne(p) + Render([p][1..]) && Render([p][1..]) == "";
    assert RenderOne(p) + "" == RenderOne(p);
    assert Substituted([p], env) == Shown(p, Ok(""), env);
    var r := Resolve(env, p.name, TrimmedDefault(p.raw));
    if r.Ok? {
      assert r.value + "" == r.value;
    }
  }

  /** Blanks and tabs. */
  predicate Blank(ws: string) {
    forall c <- ws :: c == ' ' || c == '\t'
  }

  /** An opening mark, perhaps blanks, and `env.`: what follows must be a name. */
  lemma BadNames(ws: string, rest: string, env: Env)
    requires Blank(ws) && (rest != "" ==> !Letter(rest[0]))
    ensures Expanded("{{" + ws + "env." + rest, 0, env)
         == if rest != "" && '0' <= rest[0] <= '9' then Err(BadNameStart) else Err(MissingName)
  {
    var s := OPEN + (ws + (ENV_PREFIX + rest));
    AssembledShort(ws, rest);
    AllIsRead(s);
    BlankIsWs(ws);
    hide SkipWs, ParseRest, StartsAt, ReadsOn, AllWs, Blank, IdentEnd;
    OpeningIsRead(s, 0, ws, rest);
    BadNameIs(s, 2 + |ws|, rest, env);
  }

  lemma AssembledShort(ws: string, rest: string)
    ensures OPEN + (ws + (ENV_PREFIX + rest)) == "{{" + ws + "env." + rest
    ensures ("{{" + ws + "env." + rest)[2 + |ws| + 4..] == rest
  {
  }

  lemma BadNameIs(s: string, i0: nat, rest: string, env: Env)
    requires StartsAt(s, 0, OPEN) && SkipWs(s, 2) == i0 && StartsAt(s, i0, ENV_PREFIX) && i0 + 4 <= |s| && s[i0 + 4..] == rest
    requires rest != "" ==> !Letter(rest[0])
    ensures Expanded(s, 0, env) == if rest != "" && '0' <= rest[0] <= '9' then Err(BadNameStart) else Err(MissingName)
  {
    hide SkipWs, ParseRest, IdentEnd;
    assert rest != "" ==> s[i0 + 4] == rest[0];
  }

  /** And behind the name and more blanks must come a colon or the closing mark: without a closing mark
      anywhere the placeholder is unclosed, and with one further on it is malformed. */
  lemma BadEnds(ws: string, name: string, after: string, rest: string, env: Env)
    requires Blank(ws) && PlainName(name) && Blank(after)
    requires rest != "" && !Letter(rest[0]) && !('0' <= rest[0] <= '9') && rest[0] != ' ' && rest[0] != '\t'
    ensures var s := "{{" + ws + "env." + name + after + rest;
            var closes := exists k :: 0 <= k <= |rest| - 2 && rest[k] == '}' && rest[k + 1] == '}';
            && (rest[0] != ':' && !closes ==> Expanded(s, 0, env) == Err(Unclosed))
            && (rest[0] == ':' && !closes ==> Expanded(s, 0, env) == Err(Unclosed))
            && (rest[0] != ':' && closes && !(rest[0] == '}' && rest[1] == '}') ==>
                  Expanded(s, 0, env).Err? && Expanded(s, 0, env).error.Malformed?)
  {
    var s := "{{" + ws + "env." + name + after + rest;
    var i := 2 + |ws| + 4 + |name| + |after|;
    Assembled(ws, name, after, rest);
    hide Opened, Named, ParseOpen, ParseRest, FindClose, Snippet, Trim, Blank, PlainName, StartsAt, ReadsOn;
    UpToTheEnd(s, ws, name, after, rest);
    CloseInRest(s, i, rest);
    BadEndIs(s, name, i, rest, env);
  }

  /** The same texts, put together from behind. */
  function Opened(ws: string, more: string): string {
    OPEN + (ws + (ENV_PREFIX + more))
  }

  function Named(name: string, after: string, rest: string): string {
    name + (after + rest)
  }

  lemma UpToTheEnd(s: string, ws: string, name: string, after: string, rest: string)
    requires Blank(ws) && PlainName(name) && Blank(after) && s == Opened(ws, Named(name, after, rest))
    requires rest != "" && !Letter(rest[0]) && !('0' <= rest[0] <= '9') && rest[0] != ' ' && rest[0] != '\t'
    ensures var i := 2 + |ws| + 4 + |name| + |after|;
            i <= |s| && StartsAt(s, 0, OPEN) && ParseOpen(s, 0) == ParseRest(s, 0, name, i)
  {
    AllIsRead(s);
    hide Opened, Named, ParseOpen, ParseRest, PlainName, Blank, ReadsOn, SkipWs, StartsAt;
    OpenedIsRead(s, ws, Named(name, after, rest));
    ParsedUpTo(s, 2 + |ws|, name, after, rest);
  }

  lemma OpenedIsRead(s: string, ws: string, more: string)
    requires Blank(ws) && ReadsOn(s, 0, Opened(ws, more))
    ensures StartsAt(s, 0, OPEN) && SkipWs(s, 2) == 2 + |ws|
    ensures StartsAt(s, 2 + |ws|, ENV_PREFIX) && ReadsOn(s, 2 + |ws| + 4, more)
  {
    BlankIsWs(ws);
    hide AllWs, Blank, StartsAt, SkipWs, ReadsOn;
    OpeningIsRead(s, 0, ws, more);
  }

  lemma ParsedUpTo(s: string, i0: nat, name: string, after: string, rest: string)
    requires StartsAt(s, 0, OPEN) && SkipWs(s, 2) == i0 && StartsAt(s, i0, ENV_PREFIX)
    requires PlainName(name) && Blank(after) && ReadsOn(s, i0 + 4, Named(name, after, rest))
    requires rest != "" && !Letter(rest[0]) && !('0' <= rest[0] <= '9') && rest[0] != ' ' && rest[0] != '\t'
    ensures var i := i0 + 4 + |name| + |after|; i <= |s| && ParseOpen(s, 0) == ParseRest(s, 0, name, i)
  {
    hide SkipWs, ParseIdent, ParseOpen, ParseRest, PlainName, Blank, StartsAt, ReadsOn;
    PlainNameIsRead(s, i0 + 4, name, after, rest);
    ParseOpenIs(s, i0, i0 + 4 + |name|, i0 + 4 + |name| + |after|, name);
  }

  lemma BadEndIs(s: string, name: string, i: nat, rest: string, env: Env)
    requires i <= |s| && s[i..] == rest && rest != "" && StartsAt(s, 0, OPEN) && ParseOpen(s, 0) == ParseRest(s, 0, name, i)
    ensures rest[0] != ':' && !StartsAt(s, i, CLOSE) && FindClose(s, i).None? ==> Expanded(s, 0, env) == Err(Unclosed)
    ensures rest[0] == ':' && FindClose(s, i + 1).None? ==> Expanded(s, 0, env) == Err(Unclosed)
    ensures rest[0] != ':' && !StartsAt(s, i, CLOSE) && FindClose(s, i).Some? ==>
              Expanded(s, 0, env).Err? && Expanded(s, 0, env).error.Malformed?
  {
    hide ParseOpen, FindClose, Snippet, Trim;
    assert s[i] == rest[0];
  }

  lemma ParseOpenIs(s: string, i0: nat, i1: nat, i2: nat, name: string)
    requires StartsAt(s, 0, OPEN) && SkipWs(s, 2) == i0 && StartsAt(s, i0, ENV_PREFIX)
    requires ParseIdent(s, i0 + 4) == Ok(i1) && i0 + 4 < i1 <= |s| && s[i0 + 4..i1] == name && SkipWs(s, i1) == i2
    ensures i2 <= |s| && ParseOpen(s, 0) == ParseRest(s, 0, name, i2)
  {
    hide SkipWs, ParseIdent, ParseRest;
  }

  lemma Assembled(ws: string, name: string, after: string, rest: string)
    ensures "{{" + ws + "env." + name + after + rest == Opened(ws, Named(name, after, rest))
    ensures var s := "{{" + ws + "env." + name + after + rest;
            2 + |ws| + 4 + |name| + |after| <= |s| && s[2 + |ws| + 4 + |name| + |after|..] == rest
  {
  }

  lemma AllIsRead(s: string)
    ensures ReadsOn(s, 0, s)
  {
    assert s[0..] == s;
  }

  lemma BlankIsWs(ws: string)
    requires Blank(ws)
    ensures AllWs(ws)
  {
  }

  lemma PlainNameIsRead(s: string, c: nat, name: string, after: string, rest: string)
    requires PlainName(name) && Blank(after) && ReadsOn(s, c, name + (after + rest))
    requires rest != "" && !Letter(rest[0]) && !('0' <= rest[0] <= '9') && rest[0] != ' ' && rest[0] != '\t'
    ensures ParseIdent(s, c) == Ok(c + |name|) && |name| > 0 && c + |name| <= |s| && s[c..c + |name|] == name
    ensures SkipWs(s, c + |name|) == c + |name| + |after|
  {
    var tail := after + rest;
    assert tail[0] == if after != "" then after[0] else rest[0];
    assert after != "" ==> after[0] in after;
    NameIsParsed(s, c, name, tail);
    ReadsOnInParts(s, c, name, tail);
    WsIsSkipped(s, c + |name|, after, rest);
  }

  lemma CloseInRest(s: string, i: nat, rest: string)
    requires i <= |s| && s[i..] == rest && rest != ""
    ensures FindClose(s, i).Some? <==> exists k :: 0 <= k <= |rest| - 2 && rest[k] == '}' && rest[k + 1] == '}'
    ensures rest[0] == ':' ==> (FindClose(s, i + 1).Some? <==> FindClose(s, i).Some?)
    ensures StartsAt(s, i, CLOSE) <==> |rest| >= 2 && rest[0] == '}' && rest[1] == '}'
  {
    forall k: nat | 0 <= k
      ensures StartsAt(s, i + k, CLOSE) <==> k <= |rest| - 2 && rest[k] == '}' && rest[k + 1] == '}'
    {
      if i + k + 2 <= |s| {
        assert s[i + k..i + k + 2] == [rest[k], rest[k + 1]];
      }
    }
    if FindClose(s, i).Some? {
      var k := FindClose(s, i).value - i;
      assert rest[k] == '}' && rest[k + 1] == '}';
    }
    if k :| 0 <= k <= |rest| - 2 && rest[k] == '}' && rest[k + 1] == '}' {
      assert StartsAt(s, i + k, CLOSE);
    }
  }

  /** A text is left alone if it has no two opening braces together, or no `env.` anywhere. */
  lemma PlainTextStays(s: string, env: Env)
    requires (forall i :: 0 <= i < |s| - 1 ==> !(s[i] == '{' && s[i + 1] == '{'))
             || (forall j :: 0 <= j < |s| - 3 ==> !(s[j] == 'e' && s[j + 1] == 'n' && s[j + 2] == 'v' && s[j + 3] == '.'))
    ensures Expanded(s, 0, env) == Ok(s)
  {
    forall i | 0 <= i <= |s| ensures !IsOurs(s, i) {
      if IsOurs(s, i) {
        OursHasMarks(s, i);
        assert false;
      }
    }
    hide Expanded;
    NothingOpensNothingChanges(s, 0, env);
    assert s[0..] == s;
  }

  lemma OursHasMarks(s: string, i: nat)
    requires i <= |s| && IsOurs(s, i)
    ensures i < |s| - 1 && s[i] == '{' && s[i + 1] == '{'
    ensures exists j :: 0 <= j < |s| - 3 && s[j] == 'e' && s[j + 1] == 'n' && s[j + 2] == 'v' && s[j + 3] == '.'
  {
    var j := SkipWs(s, i + 2);
    var open, prefix := s[i..i + 2], s[j..j + 4];
    assert open == ['{', '{'] && prefix == ['e', 'n', 'v', '.'];
    assert open[0] == s[i] && open[1] == s[i + 1];
    assert prefix[0] == s[j] && prefix[1] == s[j + 1] && prefix[2] == s[j + 2] && prefix[3] == s[j + 3];
  }
}
