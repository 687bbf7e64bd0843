/** The free-text extractor `parse_status_command_output` (app.py:82-106).

    Each of its three regular expressions has the shape `<literal>\s+(<class>+)`: a literal
    text, one or more whitespace characters, then a captured non-empty run of one
    character class. Instead of a general regex engine, the model states what a match of
    that shape is (`Matches`), which match Python's `re.search` reports (`IsFirstMatch`),
    and proves a search function against it. Only ASCII is modelled. */
module StatusParser {
  import opened Outcomes

  // ---------------------------------------------------------------------------
  // Character classes of Python's `re` on str patterns, restricted to ASCII
  // ---------------------------------------------------------------------------

  /** `\s`: CPython's ASCII whitespace, tab to carriage return, the separators 0x1C-0x1F, and space. */
  predicate IsSpace(c: char) {
    (9 <= c as int <= 13) || (28 <= c as int <= 32)
  }

  predicate IsDigit(c: char) {
    '0' <= c <= '9'
  }

  predicate IsUpper(c: char) {
    'A' <= c <= 'Z'
  }

  predicate IsLower(c: char) {
    'a' <= c <= 'z'
  }

  /** `\w`: letters, digits and the underscore. */
  predicate IsWord(c: char) {
    IsDigit(c) || IsUpper(c) || IsLower(c) || c == '_'
  }

  datatype Class = Space | Word | AnyButNewline | Digit

  predicate InClass(cls: Class, c: char) {
    match cls
    case Space => IsSpace(c)
    case Word => IsWord(c)
    case AnyButNewline => c != '\n'   // `.` without DOTALL
    case Digit => IsDigit(c)
  }

  // ---------------------------------------------------------------------------
  // Patterns and what a match of one is
  // ---------------------------------------------------------------------------

  /** The regular expression `<literal>\s+(<capture>+)`, matched case-sensitively. */
  datatype Pattern = Pattern(literal: string, capture: Class)

  const StatusPattern := Pattern("Redistribution service:", Word)
  const SslPattern := Pattern("SSL config:", AnyButNewline)
  const ClientsPattern := Pattern("number of clients:", Digit)

  /** A match: where it starts, and where its group starts and ends. */
  datatype Match = Match(start: nat, groupStart: nat, groupEnd: nat)

  ghost predicate AllIn(s: string, cls: Class, lo: nat, hi: nat)
    requires lo <= hi <= |s|
  {
    forall k :: lo <= k < hi ==> InClass(cls, s[k])
  }

  /** The pattern matches `s` from position `i` with group `s[gs..ge]`: the literal, then at
      least one whitespace character up to `gs`, then a non-empty run of the capture class. */
  ghost predicate Matches(s: string, pat: Pattern, i: nat, gs: nat, ge: nat) {
    var p := i + |pat.literal|;
    && p < gs < ge <= |s|
    && s[i..p] == pat.literal
    && AllIn(s, Space, p, gs)
    && AllIn(s, pat.capture, gs, ge)
  }

  ghost predicate MatchesSomewhere(s: string, pat: Pattern) {
    exists i: nat, gs: nat, ge: nat :: Matches(s, pat, i, gs, ge)
  }

  ghost predicate NoMatchBetween(s: string, pat: Pattern, lo: nat, hi: nat) {
    forall i: nat, gs: nat, ge: nat :: lo <= i < hi ==> !Matches(s, pat, i, gs, ge)
  }

  /** At its start, `m` is the match the backtracking engine tries first: the greedy `\s+`
      takes as much whitespace as still lets the group begin, then the greedy group takes
      as much as it can (nothing follows it in the pattern). */
  ghost predicate IsGreedyAt(s: string, pat: Pattern, m: Match) {
    && Matches(s, pat, m.start, m.groupStart, m.groupEnd)
    && (forall gs: nat, ge: nat :: m.groupStart < gs ==> !Matches(s, pat, m.start, gs, ge))
    && (forall ge: nat :: m.groupEnd < ge ==> !Matches(s, pat, m.start, m.groupStart, ge))
  }

  /** The match `re.search` reports: the leftmost start at which the pattern matches at all,
      and the greedy match there. */
  ghost predicate IsFirstMatch(s: string, pat: Pattern, m: Match) {
    IsGreedyAt(s, pat, m) && NoMatchBetween(s, pat, 0, m.start)
  }

  // ---------------------------------------------------------------------------
  // The search
  // ---------------------------------------------------------------------------

  /** End of the longest run of `cls` characters that starts at `lo`. */
  function RunEnd(s: string, cls: Class, lo: nat): (hi: nat)
    requires lo <= |s|
    ensures lo <= hi <= |s|
    ensures AllIn(s, cls, lo, hi)
    ensures hi < |s| ==> !InClass(cls, s[hi])
    decreases |s| - lo
  {
    if lo < |s| && InClass(cls, s[lo]) then RunEnd(s, cls, lo + 1) else lo
  }

  /** No run of `cls` characters from `lo` ends beyond `RunEnd`. */
  lemma {:induction false} RunEndMaximal(s: string, cls: Class, lo: nat)
    requires lo <= |s|
    ensures forall hi :: lo <= hi <= |s| && AllIn(s, cls, lo, hi) ==> hi <= RunEnd(s, cls, lo)
    decreases |s| - lo
  {
    if lo < |s| && InClass(cls, s[lo]) {
      RunEndMaximal(s, cls, lo + 1);
      forall hi | lo < hi <= |s| && AllIn(s, cls, lo, hi)
        ensures AllIn(s, cls, lo + 1, hi)
      {
      }
    }
  }

  /** Every match from `i` keeps its whitespace within the longest whitespace run after the
      literal, begins its group on a capture-class character and ends it within the longest
      capture-class run from there. */
  lemma MatchShape(s: string, pat: Pattern, i: nat)
    requires i + |pat.literal| <= |s|
    ensures forall gs: nat, ge: nat :: Matches(s, pat, i, gs, ge) ==>
      && gs <= RunEnd(s, Space, i + |pat.literal|)
      && InClass(pat.capture, s[gs])
      && ge <= RunEnd(s, pat.capture, gs)
  {
    var p := i + |pat.literal|;
    RunEndMaximal(s, Space, p);
    forall gs: nat, ge: nat | Matches(s, pat, i, gs, ge)
      ensures InClass(pat.capture, s[gs]) && ge <= RunEnd(s, pat.capture, gs)
    {
      RunEndMaximal(s, pat.capture, gs);
    }
  }

  /** Where the group begins once a greedy `\s+` starting at `p` has run to `top` and
      backtracks: the largest position in `(p, top]` holding a capture-class character. */
  function CaptureStart(s: string, cls: Class, p: nat, top: nat): (r: Option<nat>)
    ensures r.Some? ==> p < r.value <= top && r.value < |s| && InClass(cls, s[r.value])
    ensures r.Some? ==> forall g :: r.value < g <= top && g < |s| ==> !InClass(cls, s[g])
    ensures r.None? ==> forall g :: p < g <= top && g < |s| ==> !InClass(cls, s[g])
    decreases top
  {
    if top <= p then None
    else if top < |s| && InClass(cls, s[top]) then Some(top)
    else CaptureStart(s, cls, p, top - 1)
  }

  /** The regex tried at position `i` only. */
  function MatchAt(s: string, pat: Pattern, i: nat): (r: Option<Match>)
    ensures r.Some? ==> r.value.start == i && IsGreedyAt(s, pat, r.value)
    ensures r.None? ==> forall gs: nat, ge: nat :: !Matches(s, pat, i, gs, ge)
  {
    var p := i + |pat.literal|;
    if p > |s| || s[i..p] != pat.literal then None
    else
      var q := RunEnd(s, Space, p);
      MatchShape(s, pat, i);
      match CaptureStart(s, pat.capture, p, q)
      case None => None
      case Some(gs) =>
        Some(Match(i, gs, RunEnd(s, pat.capture, gs)))
  }

  /** The regex tried at `i`, then at each later position of `s` in turn. */
  function SearchFrom(s: string, pat: Pattern, i: nat): (r: Option<Match>)
    ensures r.Some? ==> i <= r.value.start && IsGreedyAt(s, pat, r.value)
    ensures r.Some? ==> NoMatchBetween(s, pat, i, r.value.start)
    ensures r.None? ==> forall j: nat, gs: nat, ge: nat :: i <= j ==> !Matches(s, pat, j, gs, ge)
    decreases |s| + 1 - i
  {
    if i > |s| then None
    else
      match MatchAt(s, pat, i)
      case Some(m) => Some(m)
      case None => SearchFrom(s, pat, i + 1)
  }

  /** `re.search(pattern, s)`: the first match, or `None` when the pattern matches nowhere. */
  function Search(s: string, pat: Pattern): (r: Option<Match>)
    ensures r.Some? ==> IsFirstMatch(s, pat, r.value)
    ensures r.None? <==> !MatchesSomewhere(s, pat)
  {
    SearchFrom(s, pat, 0)
  }

  /** The first match is determined by the text and the pattern alone. */
  lemma FirstMatchUnique(s: string, pat: Pattern, m1: Match, m2: Match)
    requires IsFirstMatch(s, pat, m1) && IsFirstMatch(s, pat, m2)
    ensures m1 == m2
  {
    assert Matches(s, pat, m1.start, m1.groupStart, m1.groupEnd);
    assert Matches(s, pat, m2.start, m2.groupStart, m2.groupEnd);
  }

  /** `match.group(1)`. */
  function Captured(s: string, m: Match): (g: string)
    requires m.groupStart <= m.groupEnd <= |s|
    ensures |g| == m.groupEnd - m.groupStart
    ensures forall k :: 0 <= k < |g| ==> g[k] == s[m.groupStart + k]
  {
    s[m.groupStart..m.groupEnd]
  }

  /** A group is a non-empty run of the pattern's capture class. */
  lemma CapturedInClass(s: string, pat: Pattern, m: Match)
    requires Matches(s, pat, m.start, m.groupStart, m.groupEnd)
    ensures |Captured(s, m)| > 0
    ensures forall k :: 0 <= k < |Captured(s, m)| ==> InClass(pat.capture, Captured(s, m)[k])
  {
  }

  // ---------------------------------------------------------------------------
  // Post-match conversions
  // ---------------------------------------------------------------------------

  function LowerChar(c: char): char {
    if IsUpper(c) then (c as int + 32) as char else c
  }

  /** `str.lower()` on ASCII text. */
  function Lower(s: string): string {
    seq(|s|, k requires 0 <= k < |s| => LowerChar(s[k]))
  }

  /** `str.replace(from, to)` for a one-character `from` and `to`. */
  function ReplaceChar(s: string, from: char, to: char): string {
    seq(|s|, k requires 0 <= k < |s| => if s[k] == from then to else s[k])
  }

  /** The SSL-config conversion `.lower().replace(" ", "_")` (app.py:99-101). */
  function NormalizeSsl(capture: string): (r: string)
    ensures |r| == |capture|
    ensures ' ' !in r
    ensures forall k :: 0 <= k < |r| ==> !IsUpper(r[k])
    ensures forall k :: 0 <= k < |r| ==> capture[k] == ' ' ==> r[k] == '_'
    ensures forall k :: 0 <= k < |r| ==> capture[k] != ' ' ==> r[k] == LowerChar(capture[k])
  {
    ReplaceChar(Lower(capture), ' ', '_')
  }

  /** Normalising an already normalised SSL config changes nothing. */
  lemma NormalizeSslIdempotent(capture: string)
    ensures NormalizeSsl(NormalizeSsl(capture)) == NormalizeSsl(capture)
  {
  }

  /** The reading the gate waits for: "Default certificates" becomes "default_certificates". */
  lemma NormalizeSslDefaultCertificates()
    ensures NormalizeSsl("Default certificates") == "default_certificates"
  {
  }

  function DigitValue(c: char): nat
    requires IsDigit(c)
  {
    c as int - '0' as int
  }

  ghost predicate AllDigits(s: string) {
    forall k :: 0 <= k < |s| ==> IsDigit(s[k])
  }

  function Pow10(n: nat): (p: nat)
    ensures p >= 1
  {
    if n == 0 then 1 else 10 * Pow10(n - 1)
  }

  /** `int(digits)` on a string of ASCII digits: a value that the digits' count bounds. */
  function DecimalValue(digits: string): (v: nat)
    requires AllDigits(digits)
    ensures v < Pow10(|digits|)
    ensures |digits| > 0 && digits[0] != '0' ==> Pow10(|digits| - 1) <= v
  {
    if digits == [] then 0
    else 10 * DecimalValue(digits[..|digits| - 1]) + DigitValue(digits[|digits| - 1])
  }

  /** The decimal notation of `n`, without leading zeros: the reference inverse of `int()`
      that `DecimalRoundTrip` is stated against. */
  function DecimalString(n: nat): (r: string)
    ensures |r| > 0 && AllDigits(r)
    ensures |r| > 1 ==> r[0] != '0'
  {
    if n < 10 then [('0' as int + n) as char]
    else DecimalString(n / 10) + [('0' as int + n % 10) as char]
  }

  /** `int(str(n)) == n`. */
  lemma {:induction false} DecimalRoundTrip(n: nat)
    ensures DecimalValue(DecimalString(n)) == n
  {
    if n >= 10 {
      var d := DecimalString(n);
      assert d[..|d| - 1] == DecimalString(n / 10);
      DecimalRoundTrip(n / 10);
    }
  }

  /** A leading zero does not change the count: `int("0" + digits) == int(digits)`. */
  lemma {:induction false} DecimalLeadingZero(digits: string)
    requires AllDigits(digits)
    ensures AllDigits("0" + digits) && DecimalValue("0" + digits) == DecimalValue(digits)
  {
    var z := "0" + digits;
    if digits != [] {
      assert z[..|z| - 1] == "0" + digits[..|digits| - 1];
      DecimalLeadingZero(digits[..|digits| - 1]);
    }
  }

  // ---------------------------------------------------------------------------
  // The parsed dictionary
  // ---------------------------------------------------------------------------

  const StatusKey := "redistribution_status"
  const SslKey := "ssl_config"
  const ClientsKey := "number_of_clients"

  /** A value of `parsed_data`: a captured string, or the client count once converted. */
  datatype Field = Str(text: string) | Count(count: int)

  /** The dictionary keys with their patterns, in the order the loop visits them (app.py:84-88). */
  const Patterns: seq<(string, Pattern)> :=
    [(StatusKey, StatusPattern), (SslKey, SslPattern), (ClientsKey, ClientsPattern)]

  /** `match.group(1)` of `re.search(pat, output)`, or `None` when the pattern does not match:
      the first match's group, a non-empty run of the capture class. */
  function Group(output: string, pat: Pattern): (g: Option<string>)
    ensures g.Some? ==> |g.value| > 0
    ensures g.Some? ==> forall k :: 0 <= k < |g.value| ==> InClass(pat.capture, g.value[k])
  {
    match Search(output, pat)
    case None => None
    case Some(m) =>
      CapturedInClass(output, pat, m);
      Some(Captured(output, m))
  }

  /** A group is found exactly when the pattern matches somewhere: a missing match leaves the
      key out and raises nothing. */
  lemma GroupPresentIffMatch(output: string, pat: Pattern)
    ensures Group(output, pat).Some? <==> MatchesSomewhere(output, pat)
  {
  }

  /** The client-count group is a string of digits, so `int()` accepts it. */
  lemma ClientsGroupDigits(output: string)
    ensures Group(output, ClientsPattern).Some? ==> AllDigits(Group(output, ClientsPattern).value)
  {
  }

  /** The group is the one of the first match, whatever way that match is found. */
  lemma GroupOfFirstMatch(output: string, pat: Pattern, m: Match)
    requires IsFirstMatch(output, pat, m)
    ensures Group(output, pat) == Some(Captured(output, m))
  {
    FirstMatchUnique(output, pat, m, Search(output, pat).value);
  }

  /** `parsed.get(key)`. */
  function Lookup(parsed: map<string, Field>, key: string): Option<Field> {
    if key in parsed then Some(parsed[key]) else None
  }

  /** `parsed[key] = value` when there is a value to store. */
  function Put(parsed: map<string, Field>, key: string, entry: Option<Field>): (r: map<string, Field>)
    ensures r.Keys <= parsed.Keys + {key}
    ensures Lookup(r, key) == if entry.Some? then entry else Lookup(parsed, key)
    ensures forall other :: other != key ==> Lookup(r, other) == Lookup(parsed, other)
  {
    if entry.Some? then parsed[key := entry.value] else parsed
  }

  /** What `parse_status_command_output(output)` returns. A key is present exactly when its
      pattern's group is, and holds that group, converted for the SSL config and the client
      count; no other key is ever present. */
  function StatusOf(output: string): (parsed: map<string, Field>)
    ensures parsed.Keys <= {StatusKey, SslKey, ClientsKey}
    ensures StatusKey in parsed <==> Group(output, StatusPattern).Some?
    ensures SslKey in parsed <==> Group(output, SslPattern).Some?
    ensures ClientsKey in parsed <==> Group(output, ClientsPattern).Some?
    ensures StatusKey in parsed ==> parsed[StatusKey] == Str(Group(output, StatusPattern).value)
    ensures SslKey in parsed ==> parsed[SslKey] == Str(NormalizeSsl(Group(output, SslPattern).value))
    ensures ClientsKey in parsed ==> (AllDigits(Group(output, ClientsPattern).value)
      && parsed[ClientsKey] == Count(DecimalValue(Group(output, ClientsPattern).value)))
  {
    var status := Group(output, StatusPattern);
    var ssl := Group(output, SslPattern);
    var clients := Group(output, ClientsPattern);
    var withStatus := Put(map[], StatusKey, TextEntry(status));
    var withSsl := Put(withStatus, SslKey, if ssl.Some? then Some(Str(NormalizeSsl(ssl.value))) else None);
    ClientsGroupDigits(output);
    var parsed := Put(withSsl, ClientsKey, if clients.Some? then Some(Count(DecimalValue(clients.value))) else None);
    parsed
  }

  /** Two dictionaries over the same three keys that agree on each of them are equal. */
  lemma SameLookups(a: map<string, Field>, b: map<string, Field>, k1: string, k2: string, k3: string)
    requires a.Keys <= {k1, k2, k3} && b.Keys <= {k1, k2, k3}
    requires Lookup(a, k1) == Lookup(b, k1)
    requires Lookup(a, k2) == Lookup(b, k2)
    requires Lookup(a, k3) == Lookup(b, k3)
    ensures a == b
  {
  }

  /** The dictionary entry the search loop makes of a group: the captured text, if any. */
  function TextEntry(group: Option<string>): Option<Field> {
    if group.Some? then Some(Str(group.value)) else None
  }

  /** The search loop of `parse_status_command_output` (app.py:91-95): each pattern's group,
      where there is one, stored under the pattern's key, unconverted. */
  method SearchPatterns(output: string) returns (parsed: map<string, Field>)
    ensures parsed.Keys <= {StatusKey, SslKey, ClientsKey}
    ensures Lookup(parsed, StatusKey) == TextEntry(Group(output, StatusPattern))
    ensures Lookup(parsed, SslKey) == TextEntry(Group(output, SslPattern))
    ensures Lookup(parsed, ClientsKey) == TextEntry(Group(output, ClientsPattern))
  {
    parsed := map[];
    for idx := 0 to |Patterns|
      invariant parsed.Keys <= {StatusKey, SslKey, ClientsKey}
      invariant forall j :: idx <= j < |Patterns| ==> Patterns[j].0 !in parsed
      invariant forall j :: 0 <= j < idx ==>
        Lookup(parsed, Patterns[j].0) == TextEntry(Group(output, Patterns[j].1))
    {
      var key, pattern := Patterns[idx].0, Patterns[idx].1;
      var group := Group(output, pattern);
      if group.Some? {
        parsed := parsed[key := Str(group.value)];
      }
    }
    assert Patterns[0] == (StatusKey, StatusPattern);
    assert Patterns[1] == (SslKey, SslPattern);
    assert Patterns[2] == (ClientsKey, ClientsPattern);
  }

  /** `parse_status_command_output`: the search loop, then the two conversions in place
      (app.py:98-104). */
  method ParseStatusCommandOutput(output: string) returns (parsed: map<string, Field>)
    ensures parsed == StatusOf(output)
  {
    parsed := SearchPatterns(output);
    ghost var spec := StatusOf(output);
    assert Lookup(parsed, StatusKey) == Lookup(spec, StatusKey);
    if SslKey in parsed {
      parsed := parsed[SslKey := Str(NormalizeSsl(parsed[SslKey].text))];
    }
    assert Lookup(parsed, SslKey) == Lookup(spec, SslKey);
    if ClientsKey in parsed {
      ClientsGroupDigits(output);
      parsed := parsed[ClientsKey := Count(DecimalValue(parsed[ClientsKey].text))];
    }
    assert Lookup(parsed, ClientsKey) == Lookup(spec, ClientsKey);
    SameLookups(parsed, spec, StatusKey, SslKey, ClientsKey);
  }

  // ---------------------------------------------------------------------------
  // What the parsed dictionary means, in terms of the text
  // ---------------------------------------------------------------------------

  /** Each key is present exactly when its pattern matches somewhere in the text, and no
      other key is ever present: a pattern that does not match raises nothing. */
  lemma ParsedKeysExactlyMatched(output: string)
    ensures StatusOf(output).Keys <= {StatusKey, SslKey, ClientsKey}
    ensures StatusKey in StatusOf(output) <==> MatchesSomewhere(output, StatusPattern)
    ensures SslKey in StatusOf(output) <==> MatchesSomewhere(output, SslPattern)
    ensures ClientsKey in StatusOf(output) <==> MatchesSomewhere(output, ClientsPattern)
  {
    GroupPresentIffMatch(output, StatusPattern);
    GroupPresentIffMatch(output, SslPattern);
    GroupPresentIffMatch(output, ClientsPattern);
  }

  /** The group of a greedy match is a non-empty stretch of its class; the character after it,
      if any, is outside the class, and only whitespace lies between the literal and the group.
      (For `.` the whitespace before the group is in the class too, so the group need not start
      a run.) */
  lemma GreedyGroupEndsWithClass(s: string, pat: Pattern, m: Match)
    requires IsGreedyAt(s, pat, m)
    ensures m.start + |pat.literal| < m.groupStart < m.groupEnd <= |s|
    ensures forall k :: m.groupStart <= k < m.groupEnd ==> InClass(pat.capture, s[k])
    ensures m.groupEnd == |s| || !InClass(pat.capture, s[m.groupEnd])
    ensures forall k :: m.start + |pat.literal| <= k < m.groupStart ==> IsSpace(s[k])
  {
    if m.groupEnd < |s| && InClass(pat.capture, s[m.groupEnd]) {
      assert Matches(s, pat, m.start, m.groupStart, m.groupEnd + 1);
    }
  }

  /** The status is the whole run of word characters after the first "Redistribution service:"
      that is followed by whitespace and a word character. */
  lemma ParsedStatusIsWordRun(output: string, m: Match)
    requires IsFirstMatch(output, StatusPattern, m)
    ensures StatusKey in StatusOf(output)
    ensures StatusOf(output)[StatusKey] == Str(output[m.groupStart..m.groupEnd])
    ensures m.groupStart < m.groupEnd
    ensures forall k :: m.groupStart <= k < m.groupEnd ==> IsWord(output[k])
    ensures m.groupEnd == |output| || !IsWord(output[m.groupEnd])
  {
    GroupOfFirstMatch(output, StatusPattern, m);
    GreedyGroupEndsWithClass(output, StatusPattern, m);
  }

  /** The SSL config is the rest of the line after the first "SSL config:" and whitespace,
      trailing spaces and carriage return included, lower-cased with spaces made underscores. */
  lemma ParsedSslIsRestOfLine(output: string, m: Match)
    requires IsFirstMatch(output, SslPattern, m)
    ensures SslKey in StatusOf(output)
    ensures StatusOf(output)[SslKey] == Str(NormalizeSsl(output[m.groupStart..m.groupEnd]))
    ensures m.groupStart < m.groupEnd
    ensures forall k :: m.groupStart <= k < m.groupEnd ==> output[k] != '\n'
    ensures m.groupEnd == |output| || output[m.groupEnd] == '\n'
  {
    GroupOfFirstMatch(output, SslPattern, m);
    GreedyGroupEndsWithClass(output, SslPattern, m);
  }

  /** The client count is the decimal value of the whole digit run of the first match. */
  lemma ParsedClientsIsDecimal(output: string, m: Match)
    requires IsFirstMatch(output, ClientsPattern, m)
    ensures ClientsKey in StatusOf(output)
    ensures AllDigits(output[m.groupStart..m.groupEnd])
    ensures StatusOf(output)[ClientsKey] == Count(DecimalValue(output[m.groupStart..m.groupEnd]))
    ensures StatusOf(output)[ClientsKey].count >= 0
    ensures m.groupEnd == |output| || !IsDigit(output[m.groupEnd])
  {
    GroupOfFirstMatch(output, ClientsPattern, m);
    ClientsGroupDigits(output);
    GreedyGroupEndsWithClass(output, ClientsPattern, m);
  }
}
