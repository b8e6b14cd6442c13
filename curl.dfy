/** `parseCurl`: a cURL command line read into a request by a handful of
    regular expressions. Each expression is written out as a scanner that
    says whether it matches at a given position and what its groups
    capture; `Find` is the leftmost-match search `match` and `exec` do. */
module Curl {
  import opened Wrappers
  import opened Seqs
  import opened Strings
  import opened Json
  import opened Types

  // ---------------------------------------------------------------------
  // Normalisation: `curl.replace(/\\\n/g, ' ').replace(/[\n\r]+/g, ' ').trim()`

  predicate IsBreak(c: char) {
    c == '\n' || c == '\r'
  }

  /** `replace(/\\\n/g, ' ')`: each backslash-newline pair becomes a space,
      scanning left to right. */
  function JoinContinuations(s: string): string {
    if s == [] then []
    else if |s| >= 2 && s[0] == '\\' && s[1] == '\n' then " " + JoinContinuations(s[2..])
    else [s[0]] + JoinContinuations(s[1..])
  }

  /** `replace(/[\n\r]+/g, ' ')`: each maximal run of line breaks becomes
      one space; `inRun` says the previous character was a break. */
  function CollapseBreaks(s: string, inRun: bool): (r: string)
    ensures forall i :: 0 <= i < |r| ==> !IsBreak(r[i])
  {
    if s == [] then []
    else if IsBreak(s[0]) then
      if inRun then CollapseBreaks(s[1..], true) else " " + CollapseBreaks(s[1..], true)
    else [s[0]] + CollapseBreaks(s[1..], false)
  }

  /** The cleaned command line: trimmed, and (see CleanSingleLine) with no
      line break left. */
  function Clean(curl: string): string {
    Trim(CollapseBreaks(JoinContinuations(curl), false))
  }

  /** The cleaned command line is a single line. */
  lemma CleanSingleLine(curl: string)
    ensures forall i :: 0 <= i < |Clean(curl)| ==> !IsBreak(Clean(curl)[i])
  {
    TrimChars(CollapseBreaks(JoinContinuations(curl), false));
  }

  /** A command already on one line is only trimmed. */
  lemma {:induction false} CleanOneLine(curl: string)
    requires forall i :: 0 <= i < |curl| ==> !IsBreak(curl[i])
    ensures Clean(curl) == Trim(curl)
  {
    JoinContinuationsOneLine(curl);
    CollapseBreaksOneLine(curl, false);
  }

  lemma {:induction false} JoinContinuationsOneLine(s: string)
    requires forall i :: 0 <= i < |s| ==> !IsBreak(s[i])
    ensures JoinContinuations(s) == s
  {
    if s != [] {
      assert |s| >= 2 ==> !IsBreak(s[1]);
      assert forall i :: 0 <= i < |s| - 1 ==> s[1..][i] == s[i + 1];
      JoinContinuationsOneLine(s[1..]);
    }
  }

  lemma {:induction false} CollapseBreaksOneLine(s: string, inRun: bool)
    requires forall i :: 0 <= i < |s| ==> !IsBreak(s[i])
    ensures CollapseBreaks(s, inRun) == s
  {
    if s != [] {
      CollapseBreaksOneLine(s[1..], false);
    }
  }

  // ---------------------------------------------------------------------
  // Character classes and greedy runs

  predicate IsUpper(c: char) {
    'A' <= c <= 'Z'
  }

  predicate IsQuote(c: char) {
    c == '\'' || c == '"'
  }

  /** `[^'"]` */
  predicate NotQuote(c: char) {
    !IsQuote(c)
  }

  /** `[^']` */
  predicate NotSingleQuote(c: char) {
    c != '\''
  }

  /** `[^\s"']` */
  predicate UrlChar(c: char) {
    !IsSpace(c) && !IsQuote(c)
  }

  /** The characters `.` does not match without the `s` flag. */
  predicate IsLineTerminator(c: char) {
    c == '\n' || c == '\r' || c == '\U{2028}' || c == '\U{2029}'
  }

  /** What a greedy `[…]*` takes from the front of `s`: the longest prefix
      whose characters all belong to the class `p`. */
  function Run(s: string, p: char -> bool): (r: string)
    ensures r <= s
    ensures forall i :: 0 <= i < |r| ==> p(r[i])
    ensures |r| < |s| ==> !p(s[|r|])
  {
    if s != [] && p(s[0]) then [s[0]] + Run(s[1..], p) else []
  }

  /** What `(?:[^"\\]|\\.)*` takes from the front of `s`: characters other
      than `"` and `\`, and `\` followed by any character `.` matches.
      Every unit starts with a character no other unit starts with, so
      backtracking into the star never uncovers a closing `"`: the greedy
      run is the only candidate. */
  function EscapedRun(s: string): (r: string)
    ensures r <= s
    ensures |r| < |s| ==> s[|r|] == '"' || s[|r|] == '\\'
  {
    if s == [] then []
    else if s[0] != '"' && s[0] != '\\' then [s[0]] + EscapedRun(s[1..])
    else if s[0] == '\\' && |s| >= 2 && !IsLineTerminator(s[1]) then s[..2] + EscapedRun(s[2..])
    else []
  }

  /** `https?:\/\/` at the front of `s`. */
  function Scheme(s: string): (r: Option<string>)
    ensures r.Some? ==> r.value <= s && (r.value == "http://" || r.value == "https://")
  {
    if "https://" <= s then Some("https://") else if "http://" <= s then Some("http://") else None
  }

  // ---------------------------------------------------------------------
  // The expressions

  datatype Pattern =
    | MethodFlag(flag: string)        // /-X\s+([A-Z]+)/ and /--request\s+([A-Z]+)/
    | QuotedUrl                       // /['"](https?:\/\/[^'"]+)['"]/
    | BareUrl                         // /(https?:\/\/[^\s"']+)/
    | QuotedArg(flags: seq<string>)   // /(?:f1|f2|…)\s+(?:'([^']*)'|"((?:[^"\\]|\\.)*)")/
    | UserFlag                        // /-u\s+['"]?([^'"]+)['"]?/

  /** What a successful `exec` reports: where the match starts and ends, and
      the two capture groups (None for a group that took no part). */
  datatype Match = Match(start: nat, end: nat, group1: Option<string>, group2: Option<string>)

  /** Matches whose only group is the first one, and it took part. */
  predicate FirstGroup(m: Match) {
    m.group1.Some? && m.group2.None?
  }

  const HeaderFlag: Pattern := QuotedArg(["-H"])
  const DataFlag: Pattern := QuotedArg(["-d", "--data", "--data-raw"])

  /** `flag\s+([A-Z]+)` at `i`. `\s+` stops before a letter, so giving
      spaces back never helps; the word is the whole upper-case run. */
  function FlagWordAt(s: string, i: nat, flag: string): (r: Option<Match>)
    ensures r.Some? ==> r.value.start == i && i < r.value.end <= |s| && FirstGroup(r.value)
    ensures r.Some? ==> r.value.group1.value != [] && forall c :: c in r.value.group1.value ==> IsUpper(c)
  {
    if i <= |s| && flag <= s[i..] then
      var j := i + |flag|;
      var n := |Run(s[j..], IsSpace)|;
      var w := Run(s[j + n..], IsUpper);
      if n == 0 || w == [] then None else Some(Match(i, j + n + |w|, Some(w), None))
    else None
  }

  /** `['"](https?:\/\/[^'"]+)['"]` at `i`: the address runs to the next
      quote, which must exist (either kind closes it). */
  function QuotedUrlAt(s: string, i: nat): (r: Option<Match>)
    ensures r.Some? ==> r.value.start == i && i < r.value.end <= |s| && FirstGroup(r.value)
    ensures r.Some? ==> Scheme(r.value.group1.value).Some? && forall c :: c in r.value.group1.value ==> NotQuote(c)
  {
    if i < |s| && IsQuote(s[i]) && Scheme(s[i + 1..]).Some? then
      var scheme := Scheme(s[i + 1..]).value;
      var j := i + 1 + |scheme|;
      var rest := Run(s[j..], NotQuote);
      if rest != [] && j + |rest| < |s| then
        assert scheme <= scheme + rest;
        Some(Match(i, j + |rest| + 1, Some(scheme + rest), None))
      else None
    else None
  }

  /** `(https?:\/\/[^\s"']+)` at `i`. */
  function BareUrlAt(s: string, i: nat): (r: Option<Match>)
    ensures r.Some? ==> r.value.start == i && i < r.value.end <= |s| && FirstGroup(r.value)
    ensures r.Some? ==> Scheme(r.value.group1.value).Some? && forall c :: c in r.value.group1.value ==> UrlChar(c)
  {
    if i <= |s| && Scheme(s[i..]).Some? then
      var scheme := Scheme(s[i..]).value;
      var j := i + |scheme|;
      var rest := Run(s[j..], UrlChar);
      if rest != [] then
        assert scheme <= scheme + rest;
        Some(Match(i, j + |rest|, Some(scheme + rest), None))
      else None
    else None
  }

  /** `flag\s+(?:'([^']*)'|"((?:[^"\\]|\\.)*)")` at `i`: a single-quoted
      argument fills the first group, a double-quoted one the second. */
  function QuotedAfter(s: string, i: nat, flag: string): (r: Option<Match>)
    ensures r.Some? ==> r.value.start == i && i < r.value.end <= |s|
    ensures r.Some? ==> r.value.group1.Some? != r.value.group2.Some?
  {
    if i <= |s| && flag <= s[i..] then
      var j := i + |flag|;
      var n := |Run(s[j..], IsSpace)|;
      var q := j + n;
      if n == 0 || q == |s| then None
      else if s[q] == '\'' then
        var body := Run(s[q + 1..], NotSingleQuote);
        if q + 1 + |body| < |s| then Some(Match(i, q + 2 + |body|, Some(body), None)) else None
      else if s[q] == '"' then
        var body := EscapedRun(s[q + 1..]);
        if q + 1 + |body| < |s| && s[q + 1 + |body|] == '"' then Some(Match(i, q + 2 + |body|, None, Some(body)))
        else None
      else None
    else None
  }

  /** An alternation of flags: each is tried in turn at the same position. */
  function QuotedArgAt(s: string, i: nat, flags: seq<string>): (r: Option<Match>)
    ensures r.Some? ==> r.value.start == i && i < r.value.end <= |s|
    ensures r.Some? ==> r.value.group1.Some? != r.value.group2.Some?
  {
    if flags == [] then None
    else
      var m := QuotedAfter(s, i, flags[0]);
      if m.Some? then m else QuotedArgAt(s, i, flags[1..])
  }

  /** `-u\s+['"]?([^'"]+)['"]?` at `i`. The credentials run to the next
      quote or the end, spaces included. When a quote follows the spaces
      and no credentials follow that quote (or nothing follows the spaces),
      the engine backtracks: `\s+` gives back its last white-space
      character, which `[^'"]+` then captures alone. */
  function UserAt(s: string, i: nat): (r: Option<Match>)
    ensures r.Some? ==> r.value.start == i && i < r.value.end <= |s| && FirstGroup(r.value)
    ensures r.Some? ==> r.value.group1.value != [] && forall c :: c in r.value.group1.value ==> NotQuote(c)
  {
    if i <= |s| && "-u" <= s[i..] then
      var j := i + 2;
      var n := |Run(s[j..], IsSpace)|;
      var q := j + n;
      var open := if q < |s| && IsQuote(s[q]) then 1 else 0;
      var user := Run(s[q + open..], NotQuote);
      var e := q + open + |user|;
      if n == 0 then None
      else if user != [] then Some(Match(i, if e < |s| then e + 1 else e, Some(user), None))
      else if n >= 2 then
        assert IsSpace(s[j..][n - 1]);
        Some(Match(i, if q < |s| then q + 1 else q, Some([s[q - 1]]), None))
      else None
    else None
  }

  /** Whether and how `p` matches at position `i` of `s`. */
  function MatchAt(s: string, i: nat, p: Pattern): (r: Option<Match>)
    ensures r.Some? ==> r.value.start == i && i < r.value.end <= |s|
  {
    match p
    case MethodFlag(flag) => FlagWordAt(s, i, flag)
    case QuotedUrl => QuotedUrlAt(s, i)
    case BareUrl => BareUrlAt(s, i)
    case QuotedArg(flags) => QuotedArgAt(s, i, flags)
    case UserFlag => UserAt(s, i)
  }

  /** The search `match` and `exec` perform: the match at the first
      position from `from` on where `p` matches. */
  function Find(s: string, p: Pattern, from: nat): (r: Option<Match>)
    ensures r.Some? ==> from <= r.value.start < r.value.end <= |s| && MatchAt(s, r.value.start, p) == r
    decreases |s| + 1 - from
  {
    if from > |s| then None
    else
      var m := MatchAt(s, from, p);
      if m.Some? then m else Find(s, p, from + 1)
  }

  /** A position before the one `Find` reports does not match, and the
      search moves on past it. */
  lemma FindSkips(s: string, p: Pattern, from: nat)
    requires Find(s, p, from).Some? ==> from < Find(s, p, from).value.start
    requires from <= |s|
    ensures MatchAt(s, from, p).None? && Find(s, p, from) == Find(s, p, from + 1)
  {
  }

  /** The search from `from` reports the same as the search from any later
      position up to the match it reports. */
  lemma {:induction false} FindReaches(s: string, p: Pattern, from: nat, k: nat)
    requires from <= k
    requires Find(s, p, from).Some? ==> k < Find(s, p, from).value.start
    requires Find(s, p, from).None? ==> k <= |s|
    ensures Find(s, p, k) == Find(s, p, from)
    decreases k - from
  {
    if from < k {
      FindSkips(s, p, from);
      FindReaches(s, p, from + 1, k);
    }
  }

  /** `Find` reports the leftmost match: no position between `from` and
      the match it reports matches, and none from `from` on matches when
      it reports nothing. */
  lemma FindLeftmost(s: string, p: Pattern, from: nat, k: nat)
    requires from <= k
    requires Find(s, p, from).Some? ==> k < Find(s, p, from).value.start
    requires Find(s, p, from).None? ==> k <= |s|
    ensures MatchAt(s, k, p).None?
  {
    FindReaches(s, p, from, k);
    FindSkips(s, p, k);
  }

  /** The successive matches of a `g`-flagged expression in an `exec` loop:
      each search resumes where the previous match ended. */
  function Matches(s: string, p: Pattern, from: nat): seq<Match>
    decreases |s| + 1 - from
  {
    match Find(s, p, from)
    case None => []
    case Some(m) => [m] + Matches(s, p, m.end)
  }

  lemma MatchesNext(s: string, p: Pattern, from: nat)
    ensures Find(s, p, from).None? ==> Matches(s, p, from) == []
    ensures Find(s, p, from).Some? ==> Matches(s, p, from) == [Find(s, p, from).value] + Matches(s, p, Find(s, p, from).value.end)
  {
  }

  // ---------------------------------------------------------------------
  // What the command line says

  /** The method word: `-X` anywhere first, `--request` only without one. */
  function MethodIn(s: string): (r: Option<string>)
    ensures r.Some? ==> r.value != [] && forall c :: c in r.value ==> IsUpper(c)
  {
    var x := Find(s, MethodFlag("-X"), 0);
    var m := if x.Some? then x else Find(s, MethodFlag("--request"), 0);
    if m.Some? then Some(m.value.group1.value) else None
  }

  /** The URL: a quoted `http(s)://` address first, a bare one otherwise. */
  function UrlIn(s: string): (r: Option<string>)
    ensures r.Some? ==> ("http://" <= r.value || "https://" <= r.value) && forall c :: c in r.value ==> NotQuote(c)
  {
    var quoted := Find(s, QuotedUrl, 0);
    var m := if quoted.Some? then quoted else Find(s, BareUrl, 0);
    if m.Some? then Some(m.value.group1.value) else None
  }

  /** `replace(/\\"/g, '"')`: each backslash-quote pair becomes a quote. */
  function Unescape(s: string): (r: string)
    ensures |r| <= |s|
  {
    if s == [] then []
    else if |s| >= 2 && s[0] == '\\' && s[1] == '"' then "\"" + Unescape(s[2..])
    else [s[0]] + Unescape(s[1..])
  }

  /** A backslash before every double quote: how a value is written inside
      a double-quoted shell argument. */
  function Escape(t: string): string {
    if t == [] then [] else (if t[0] == '"' then "\\\"" else [t[0]]) + Escape(t[1..])
  }

  /** Unescaping undoes escaping. */
  lemma {:induction false} UnescapeEscape(t: string)
    ensures Unescape(Escape(t)) == t
  {
    if t != [] {
      UnescapeEscape(t[1..]);
      var e := Escape(t);
      if t[0] == '"' {
        assert e == "\\\"" + Escape(t[1..]);
        assert e[2..] == Escape(t[1..]);
      } else {
        assert e == [t[0]] + Escape(t[1..]);
        assert e[1..] == Escape(t[1..]);
        if t[0] == '\\' && |t| >= 2 {
          assert Escape(t[1..])[0] != '"';
        }
      }
    }
  }

  /** The argument of a quoted-argument match, as `match[1] || match[2]`
      gives it, with `\"` unescaped when the second group is non-empty;
      None is `undefined` (an empty single-quoted argument). */
  function Argument(m: Match): Option<string> {
    if m.group1.Some? && m.group1.value != "" then Some(m.group1.value)
    else if m.group2.Some? then Some(Unescape(m.group2.value))
    else None
  }

  /** One `-H` argument read as a header: `content.split(':')`, the first
      piece as key and the rest joined back with `:` as value, both
      trimmed, kept only when the argument and the untrimmed key are
      non-empty. */
  function HeaderOf(content: string): Option<(string, string)> {
    if content == "" then None
    else
      var parts := Split(content, ':');
      if parts[0] == "" then None else Some((Trim(parts[0]), Trim(Join(parts[1..], ':'))))
  }

  /** A header is split at its first colon, and only there. */
  lemma HeaderSplitsAtFirstColon(content: string)
    ensures HeaderOf(content).Some? <==> content != "" && content[0] != ':'
    ensures HeaderOf(content).Some? && ':' in content ==>
      var i := IndexOf(content, ':');
      HeaderOf(content).value == (Trim(content[..i]), Trim(content[i + 1..]))
    ensures HeaderOf(content).Some? && ':' !in content ==> HeaderOf(content).value == (Trim(content), "")
  {
    if content != "" {
      SplitFirst(content, ':');
      if ':' in content {
        var i := IndexOf(content, ':');
        assert Split(content, ':')[1..] == Split(content[i + 1..], ':');
      }
    }
  }

  /** The header one `-H` match gives, if any. */
  function HeaderIn(m: Match): Option<(string, string)> {
    var content := Argument(m);
    if content.Some? then HeaderOf(content.value) else None
  }

  /** The headers the matches yield, in order. */
  function Pairs(ms: seq<Match>): seq<(string, string)> {
    if ms == [] then []
    else (if HeaderIn(ms[0]).Some? then [HeaderIn(ms[0]).value] else []) + Pairs(ms[1..])
  }

  lemma PairsStep(m: Match, rest: seq<Match>)
    ensures Pairs([m] + rest) == (if HeaderIn(m).Some? then [HeaderIn(m).value] else []) + Pairs(rest)
  {
    assert ([m] + rest)[1..] == rest;
  }

  /** The header rows: `pairs` with fresh ids drawn from `k` on. */
  function Rows(pairs: seq<(string, string)>, mint: nat -> string, k: nat): (r: seq<KeyValueItem>)
    ensures |r| == |pairs|
  {
    if pairs == [] then []
    else
      var n := |pairs| - 1;
      Rows(pairs[..n], mint, k) + [KeyValueItem(mint(k + n), pairs[n].0, pairs[n].1, true)]
  }

  /** Row `i` carries the `i`-th header, enabled, under the `i`-th fresh id. */
  lemma {:induction false} RowsItems(pairs: seq<(string, string)>, mint: nat -> string, k: nat, i: nat)
    requires i < |pairs|
    ensures Rows(pairs, mint, k)[i] == KeyValueItem(mint(k + i), pairs[i].0, pairs[i].1, true)
    decreases |pairs|
  {
    var n := |pairs| - 1;
    if i < n {
      RowsItems(pairs[..n], mint, k, i);
    }
  }

  lemma RowsAppend(pairs: seq<(string, string)>, h: (string, string), mint: nat -> string, k: nat)
    ensures Rows(pairs + [h], mint, k) == Rows(pairs, mint, k) + [KeyValueItem(mint(k + |pairs|), h.0, h.1, true)]
  {
    assert (pairs + [h])[..|pairs|] == pairs;
  }

  /** With fresh ids, every row has an id of its own. */
  lemma RowsDistinctIds(pairs: seq<(string, string)>, mint: nat -> string, k: nat)
    requires Injective(mint)
    ensures DistinctIds(Rows(pairs, mint, k))
  {
    forall i, j | 0 <= i < j < |pairs| ensures Rows(pairs, mint, k)[i].id != Rows(pairs, mint, k)[j].id {
      RowsItems(pairs, mint, k, i);
      RowsItems(pairs, mint, k, j);
    }
  }

  /** Every header the command line carries. */
  function HeaderPairs(s: string): seq<(string, string)> {
    Pairs(Matches(s, HeaderFlag, 0))
  }

  /** The `while (headerRegex.exec(…))` loop: reads each `-H` argument and
      pushes a row for each that is a header. */
  method ScanHeaders(s: string, mint: nat -> string, k: nat) returns (headers: seq<KeyValueItem>)
    ensures headers == Rows(HeaderPairs(s), mint, k)
  {
    headers := [];
    var pos: nat := 0;
    ghost var pairs: seq<(string, string)> := [];
    while true
      invariant HeaderPairs(s) == pairs + Pairs(Matches(s, HeaderFlag, pos))
      invariant headers == Rows(pairs, mint, k)
      decreases |s| + 1 - pos
    {
      var m := Find(s, HeaderFlag, pos);
      MatchesNext(s, HeaderFlag, pos);
      if m.None? {
        assert pairs + [] == pairs;
        break;
      }
      ghost var rest := Matches(s, HeaderFlag, m.value.end);
      PairsStep(m.value, rest);
      var h := HeaderIn(m.value);
      if h.Some? {
        RowsAppend(pairs, h.value, mint, k);
        ConcatAssoc(pairs, [h.value], Pairs(rest));
        assert |headers| == |pairs|;
        headers := headers + [KeyValueItem(mint(k + |headers|), h.value.0, h.value.1, true)];
        pairs := pairs + [h.value];
        assert headers == Rows(pairs, mint, k);
      } else {
        assert [] + Pairs(rest) == Pairs(rest);
      }
      pos := m.value.end;
    }
  }

  /** `headers.find(h => h.key.toLowerCase() === 'authorization')`, as an
      index: the first header named `authorization` in any case. */
  function FindAuthorization(headers: seq<KeyValueItem>, from: nat): (r: Option<nat>)
    ensures r.Some? ==> from <= r.value < |headers| && Lower(headers[r.value].key) == "authorization"
    ensures r.Some? ==> forall j :: from <= j < r.value ==> Lower(headers[j].key) != "authorization"
    ensures r.None? ==> forall j :: from <= j < |headers| ==> Lower(headers[j].key) != "authorization"
    decreases |headers| - from
  {
    if from >= |headers| then None
    else if Lower(headers[from].key) == "authorization" then Some(from)
    else FindAuthorization(headers, from + 1)
  }

  /** The position of the header that becomes a bearer token: the first
      `authorization` header, when its value starts with `bearer ` in any
      case. A later one is never looked at. */
  function BearerIndex(headers: seq<KeyValueItem>): (r: Option<nat>)
    ensures r.Some? ==> r.value < |headers| && |headers[r.value].value| >= 7
    ensures r.Some? ==> Lower(headers[r.value].key) == "authorization" && "bearer " <= Lower(headers[r.value].value)
    ensures r.Some? ==> forall j :: 0 <= j < r.value ==> Lower(headers[j].key) != "authorization"
    ensures r.None? ==> forall j :: 0 <= j < |headers| && Lower(headers[j].key) == "authorization" && "bearer " <= Lower(headers[j].value) ==>
      exists i :: 0 <= i < j && Lower(headers[i].key) == "authorization"
  {
    var found := FindAuthorization(headers, 0);
    if found.Some? && "bearer " <= Lower(headers[found.value].value) then found else None
  }

  /** `headers.findIndex(h => h.id === id)`. */
  function FindIndexById(headers: seq<KeyValueItem>, id: string, from: nat): (r: Option<nat>)
    ensures r.Some? ==> from <= r.value < |headers| && headers[r.value].id == id
    ensures r.Some? ==> forall j :: from <= j < r.value ==> headers[j].id != id
    ensures r.None? ==> forall j :: from <= j < |headers| ==> headers[j].id != id
    decreases |headers| - from
  {
    if from >= |headers| then None
    else if headers[from].id == id then Some(from)
    else FindIndexById(headers, id, from + 1)
  }

  /** Looking a row up by its own fresh id finds that row. */
  lemma FindOwnRow(rows: seq<KeyValueItem>, i: nat)
    requires DistinctIds(rows) && i < |rows|
    ensures FindIndexById(rows, rows[i].id, 0) == Some(i)
  {
  }

  /** `-u user:pass` split at the colons: the user name is the first piece
      and the password the second only, or "" when there is none. */
  function Credentials(u: string): (string, string) {
    var parts := Split(u, ':');
    (parts[0], if |parts| >= 2 then parts[1] else "")
  }

  /** The user name ends at the first colon; the password ends at the
      second, so a password holding a colon is cut short. */
  lemma CredentialsSegments(u: string)
    ensures ':' !in u ==> Credentials(u) == (u, "")
    ensures ':' in u ==>
      var i := IndexOf(u, ':');
      var rest := u[i + 1..];
      Credentials(u) == (u[..i], if ':' in rest then rest[..IndexOf(rest, ':')] else rest)
  {
    SplitFirst(u, ':');
    if ':' in u {
      var i := IndexOf(u, ':');
      SplitFirst(u[i + 1..], ':');
    }
  }

  /** The body argument: `-d`, `--data` or `--data-raw`, the first in the
      command line; None inside means the argument reads as `undefined`. */
  function DataIn(s: string): Option<Option<string>> {
    var m := Find(s, DataFlag, 0);
    if m.Some? then Some(Argument(m.value)) else None
  }

  function UserIn(s: string): Option<string> {
    var m := Find(s, UserFlag, 0);
    if m.Some? then Some(m.value.group1.value) else None
  }

  const ImportedName := "Imported cURL"

  /** What the expressions extract from a cleaned command line, with the
      header rows already numbered. */
  datatype Extracted = Extracted(
    verb: Option<string>,
    url: Option<string>,
    headers: seq<KeyValueItem>,
    data: Option<Option<string>>,
    user: Option<string>)

  function ExtractedFrom(curl: string, mint: nat -> string, k: nat): Extracted {
    var s := Clean(curl);
    Extracted(MethodIn(s), UrlIn(s), Rows(HeaderPairs(s), mint, k + 3), DataIn(s), UserIn(s))
  }

  /** The request `parseCurl` builds from what was extracted, drawing ids
      in the source's order from `k`: request, params row, header row, one
      per header read, and one for the closing empty row when headers
      remain. */
  predicate IsCurlImport(req: ApiRequest, next: nat, x: Extracted, codec: JsonCodec, mint: nat -> string, k: nat) {
    var rows := x.headers;
    var b := BearerIndex(rows);
    // every header read is kept, in order, except a bearer `authorization` header
    var kept := if b.Some? then rows[..b.value] + rows[b.value + 1..] else rows;
    var token := if b.Some? then Some(Trim(rows[b.value].value[7..])) else None;
    Assembled(req, next, x, kept, token, codec, mint, k)
  }

  predicate Assembled(req: ApiRequest, next: nat, x: Extracted, kept: seq<KeyValueItem>, token: Option<string>,
                      codec: JsonCodec, mint: nat -> string, k: nat)
  {
    var verb := if x.verb.Some? then x.verb.value else GET;
    && req.id == mint(k) && req.name == ImportedName && req.collectionId == None
    && req.params == [EmptyRow(mint(k + 1))]
    && req.url == (if x.url.Some? then x.url.value else "")
    // the method word, or GET; a GET that carries a body is sent as POST
    && req.httpMethod == (if x.data.Some? && verb == GET then POST else verb)
    // an empty row closes the header list
    && (kept != [] ==> req.headers == kept + [EmptyRow(mint(k + 3 + |x.headers|))] && next == k + 4 + |x.headers|)
    && (kept == [] ==> req.headers == [EmptyRow(mint(k + 2))] && next == k + 3 + |x.headers|)
    // a body that parses as JSON is pretty-printed, any other kept verbatim
    && req.bodyType == JsonBody
    && (x.data.None? || x.data.value.None? ==> req.bodyContent == "")
    && (x.data.Some? && x.data.value.Some? ==>
          var body := x.data.value.value;
          req.bodyContent == if codec.parse(body).Some? then codec.stringify(codec.parse(body).value) else body)
    // `-u` wins over a bearer header, but the token stays recorded
    && req.auth.authType == (if x.user.Some? then BasicAuth else if token.Some? then BearerAuth else NoAuth)
    && req.auth.bearerToken == (if token.Some? then token.value else "")
    && req.auth.basicUsername == (if x.user.Some? then Credentials(x.user.value).0 else "")
    && req.auth.basicPassword == (if x.user.Some? then Credentials(x.user.value).1 else "")
    && req.auth.apiKeyKey == "" && req.auth.apiKeyValue == "" && req.auth.apiKeyLocation == InHeader
  }

  /** `parseCurl`: the request is built field by field, the headers by a
      scanning loop, the bearer header spliced out by its id. */
  method ParseCurl(curl: string, codec: JsonCodec, mint: nat -> string, k: nat) returns (req: ApiRequest, next: nat)
    requires Injective(mint)
    ensures IsCurlImport(req, next, ExtractedFrom(curl, mint, k), codec, mint, k)
  {
    var x := Extract(curl, mint, k);
    var kept, token := SpliceBearer(x.headers);
    req, next := Assemble(x, kept, token, codec, mint, k);
    AssembledImport(req, next, x, kept, token, codec, mint, k);
  }

  /** The matching half of `parseCurl`: the command line is cleaned and
      each expression run over it; the header rows carry distinct ids. */
  method Extract(curl: string, mint: nat -> string, k: nat) returns (x: Extracted)
    requires Injective(mint)
    ensures x == ExtractedFrom(curl, mint, k)
    ensures DistinctIds(x.headers)
  {
    var s := Clean(curl);
    var headers := ScanHeaders(s, mint, k + 3);
    RowsDistinctIds(HeaderPairs(s), mint, k + 3);
    x := Extracted(MethodIn(s), UrlIn(s), headers, DataIn(s), UserIn(s));
  }

  lemma AssembledImport(req: ApiRequest, next: nat, x: Extracted, kept: seq<KeyValueItem>, token: Option<string>,
                        codec: JsonCodec, mint: nat -> string, k: nat)
    requires var b := BearerIndex(x.headers);
      && kept == (if b.Some? then x.headers[..b.value] + x.headers[b.value + 1..] else x.headers)
      && token == (if b.Some? then Some(Trim(x.headers[b.value].value[7..])) else None)
    requires Assembled(req, next, x, kept, token, codec, mint, k)
    ensures IsCurlImport(req, next, x, codec, mint, k)
  {
  }

  /** `findIndex` by id, then `splice` of that one row when it is found. */
  function RemoveById(headers: seq<KeyValueItem>, id: string): (r: seq<KeyValueItem>)
    ensures |r| == |headers| || |r| == |headers| - 1
  {
    var idx := FindIndexById(headers, id, 0);
    if idx.Some? then headers[..idx.value] + headers[idx.value + 1..] else headers
  }

  /** Removing a row by its own id, when ids are distinct, removes exactly
      that row. */
  lemma RemoveOwnRow(rows: seq<KeyValueItem>, i: nat)
    requires DistinctIds(rows) && i < |rows|
    ensures RemoveById(rows, rows[i].id) == rows[..i] + rows[i + 1..]
  {
    FindOwnRow(rows, i);
  }

  /** The bearer check: the first `authorization` header, when it holds a
      bearer token, is looked up again by its id and spliced out. */
  method SpliceBearer(headers: seq<KeyValueItem>) returns (kept: seq<KeyValueItem>, token: Option<string>)
    requires DistinctIds(headers)
    ensures var b := BearerIndex(headers);
      && kept == (if b.Some? then headers[..b.value] + headers[b.value + 1..] else headers)
      && token == (if b.Some? then Some(Trim(headers[b.value].value[7..])) else None)
  {
    var b := BearerIndex(headers);
    if b.Some? {
      var auth := headers[b.value];
      token := Some(Trim(auth.value[7..]));
      kept := RemoveById(headers, auth.id);
      RemoveOwnRow(headers, b.value);
    } else {
      kept, token := headers, None;
    }
  }

  /** The field-by-field assignments of `parseCurl` once the expressions
      have been matched and the bearer header taken out; each group of
      assignments is a step of its own, in the source's order. */
  method Assemble(x: Extracted, kept: seq<KeyValueItem>, token: Option<string>, codec: JsonCodec, mint: nat -> string, k: nat)
    returns (req: ApiRequest, next: nat)
    ensures Assembled(req, next, x, kept, token, codec, mint, k)
  {
    var url := "";
    if x.url.Some? {
      url := x.url.value;
    }
    var headers;
    headers, next := CloseHeaders(kept, mint, k + 3 + |x.headers|, mint(k + 2));
    var bodyContent := "";
    if x.data.Some? {
      bodyContent := ReadBody(x.data.value, codec);
    }
    var verb := ImportedVerb(x.verb, x.data.Some?);
    var auth := ImportedAuth(token, x.user);
    req := ApiRequest(mint(k), ImportedName, verb, url, [EmptyRow(mint(k + 1))], headers,
                      JsonBody, bodyContent, None, auth);
  }

  /** The method word, or GET; a GET that carries a body becomes POST. */
  method ImportedVerb(word: Option<string>, hasData: bool) returns (verb: HttpMethod)
    ensures var v := if word.Some? then word.value else GET;
      verb == if hasData && v == GET then POST else v
  {
    verb := GET;
    if word.Some? {
      verb := word.value;
    }
    if hasData && verb == GET {
      verb := POST;
    }
  }

  /** The header table: the kept headers closed by an empty row drawn
      next, or the seeded empty row when no header is kept. */
  method CloseHeaders(kept: seq<KeyValueItem>, mint: nat -> string, next0: nat, seedId: string)
    returns (headers: seq<KeyValueItem>, next: nat)
    ensures kept != [] ==> headers == kept + [EmptyRow(mint(next0))] && next == next0 + 1
    ensures kept == [] ==> headers == [EmptyRow(seedId)] && next == next0
  {
    headers, next := [EmptyRow(seedId)], next0;
    if |kept| > 0 {
      headers := kept + [EmptyRow(mint(next))];
      next := next + 1;
    }
  }

  /** The authentication of an imported request: a bearer token when one
      was found, replaced as the type by basic authentication under `-u`. */
  method ImportedAuth(token: Option<string>, user: Option<string>) returns (auth: AuthConfig)
    ensures auth.authType == (if user.Some? then BasicAuth else if token.Some? then BearerAuth else NoAuth)
    ensures auth.bearerToken == (if token.Some? then token.value else "")
    ensures auth.basicUsername == (if user.Some? then Credentials(user.value).0 else "")
    ensures auth.basicPassword == (if user.Some? then Credentials(user.value).1 else "")
    ensures auth.apiKeyKey == "" && auth.apiKeyValue == "" && auth.apiKeyLocation == InHeader
  {
    auth := EmptyAuth;
    if token.Some? {
      auth := auth.(authType := BearerAuth, bearerToken := token.value);
    }
    if user.Some? {
      auth := WithBasic(auth, user.value);
    }
  }

  /** The body branch of `parseCurl`: a body that parses as JSON is
      pretty-printed, any other is kept verbatim; an `undefined` body
      leaves the content empty. */
  method ReadBody(body: Option<string>, codec: JsonCodec) returns (content: string)
    ensures body.None? ==> content == ""
    ensures body.Some? && codec.parse(body.value).Some? ==> content == codec.stringify(codec.parse(body.value).value)
    ensures body.Some? && codec.parse(body.value).None? ==> content == body.value
  {
    content := "";
    if body.Some? {
      var parsed := codec.parse(body.value);
      if parsed.Some? {
        content := codec.stringify(parsed.value);
      } else {
        content := body.value;
      }
    }
  }

  /** The `-u` branch of `parseCurl`: basic authentication with the user
      name is the text before the first colon, the password the segment
      after it (empty without a colon); the bearer token and the API-key
      fields stay recorded. */
  method WithBasic(auth: AuthConfig, user: string) returns (r: AuthConfig)
    ensures r == auth.(authType := BasicAuth, basicUsername := Credentials(user).0, basicPassword := Credentials(user).1)
    ensures r.authType == BasicAuth
    ensures ':' !in user ==> r.basicUsername == user && r.basicPassword == ""
    ensures ':' in user ==>
      var i := IndexOf(user, ':');
      var rest := user[i + 1..];
      r.basicUsername == user[..i] && r.basicPassword == (if ':' in rest then rest[..IndexOf(rest, ':')] else rest)
    ensures r.bearerToken == auth.bearerToken && r.apiKeyKey == auth.apiKeyKey
    ensures r.apiKeyValue == auth.apiKeyValue && r.apiKeyLocation == auth.apiKeyLocation
  {
    CredentialsSegments(user);
    var (name, pass) := Credentials(user);
    r := auth.(authType := BasicAuth, basicUsername := name, basicPassword := pass);
  }
}
