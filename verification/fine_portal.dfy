/** The part of the portal client that reads the download link of the
    workbook out of the notice page: the case-insensitive link pattern with
    JavaScript's leftmost, greedy matching, the `&amp;` unescaping, and the
    check that the path stays under the portal's download endpoint. */
module FinePortal {
  import opened Wrappers
  import opened Text
  import opened Types
  import opened Seqs

  // ---------------------------------------------------------------
  // Case-insensitive literals
  // ---------------------------------------------------------------

  /** Case folding of a regular expression with the `i` flag and without `u`:
      only ASCII letters change case among the characters the pattern names,
      so folding ASCII letters to upper case decides every comparison. */
  function AsciiUpper(c: char): char {
    if 'a' <= c <= 'z' then (c as int - 32) as char else c
  }

  /** A string with its ASCII letters upper-cased. */
  function Fold(s: string): (r: string)
    ensures |r| == |s|
  {
    seq(|s|, i requires 0 <= i < |s| => AsciiUpper(s[i]))
  }

  /** `lit` matches at index `k` of `s`, ignoring ASCII case. */
  predicate LitAt(s: string, k: int, lit: string) {
    0 <= k && k + |lit| <= |s| && Fold(s[k..k + |lit|]) == Fold(lit)
  }

  /** No character of `s[lo..hi]` is `c`. */
  predicate Avoids(s: string, lo: int, hi: int, c: char)
    requires 0 <= lo && hi <= |s|
  {
    forall k | lo <= k < hi :: s[k] != c
  }

  /** Every character of `s[lo..hi]` is white space in the sense of `\s`. */
  predicate WhiteBetween(s: string, lo: int, hi: int)
    requires 0 <= lo && hi <= |s|
  {
    forall k | lo <= k < hi :: IsWhitespace(s[k])
  }

  // ---------------------------------------------------------------
  // The link pattern
  // ---------------------------------------------------------------

  /** The literal text the pattern starts with: the attribute opening (six
      characters) followed by the download endpoint and its `?`. */
  const LINK_HEAD: string := "href=\"/fine/cmmn/file/fileDown.do?"
  const KEYWORD: string := "전자금융업"
  const EXTENSION: string := ".xlsx"

  /** One way the pattern can match: where it starts, where group 1 ends
      (the closing quote), the `>` that ends the tag, where group 2 starts
      (after the white space), and where the keyword and the extension are
      taken inside group 2. */
  datatype LinkMatch = LinkMatch(start: nat, quote: nat, close: nat, nameStart: nat, keyword: nat, ext: nat)

  /** `m` is a match of
      `href="(/fine/cmmn/file/fileDown\.do\?[^"]+)"[^>]*>\s*([^<]*전자금융업[^<]*\.xlsx)`
      with the `i` flag: each part of the pattern in turn, with the span
      each quantifier consumes. */
  predicate Parse(s: string, m: LinkMatch) {
    LitAt(s, m.start, LINK_HEAD)
    // [^"]+ then the closing quote
    && m.start + |LINK_HEAD| < m.quote < |s| && s[m.quote] == '"'
    && Avoids(s, m.start + |LINK_HEAD|, m.quote, '"')
    // [^>]* then the end of the tag
    && m.quote < m.close < |s| && s[m.close] == '>'
    && Avoids(s, m.quote + 1, m.close, '>')
    // \s*
    && m.close < m.nameStart <= |s| && WhiteBetween(s, m.close + 1, m.nameStart)
    // [^<]* then the keyword
    && m.nameStart <= m.keyword && LitAt(s, m.keyword, KEYWORD)
    && Avoids(s, m.nameStart, m.keyword, '<')
    // [^<]* then the extension
    && m.keyword + |KEYWORD| <= m.ext && LitAt(s, m.ext, EXTENSION)
    && Avoids(s, m.keyword + |KEYWORD|, m.ext, '<')
  }

  /** Capture group 1, the escaped download path. */
  function PathGroup(s: string, m: LinkMatch): string
    requires Parse(s, m)
  {
    s[m.start + 6..m.quote]
  }

  /** Capture group 2, the file name. */
  function NameGroup(s: string, m: LinkMatch): string
    requires Parse(s, m)
  {
    s[m.nameStart..m.ext + |EXTENSION|]
  }

  /** `m` comes no later than `n` in the order a backtracking matcher tries
      matches: an earlier start first, then, quantifier by quantifier from
      left to right, the longer span first (every quantifier is greedy). */
  predicate TriedFirst(m: LinkMatch, n: LinkMatch) {
    if m.start != n.start then m.start < n.start
    else if m.quote != n.quote then m.quote > n.quote
    else if m.close != n.close then m.close > n.close
    else if m.nameStart != n.nameStart then m.nameStart > n.nameStart
    else if m.keyword != n.keyword then m.keyword > n.keyword
    else m.ext >= n.ext
  }

  /** The match `String.prototype.match` reports: a match tried before every
      other one. */
  ghost predicate Chosen(s: string, m: LinkMatch) {
    Parse(s, m) && forall n | Parse(s, n) :: TriedFirst(m, n)
  }

  /** There is at most one reported match. */
  lemma ChosenUnique(s: string, m: LinkMatch, n: LinkMatch)
    requires Chosen(s, m) && Chosen(s, n)
    ensures m == n
  {
    assert TriedFirst(m, n) && TriedFirst(n, m);
  }

  // ---------------------------------------------------------------
  // Finding the match
  // ---------------------------------------------------------------

  /** The first index from `i` on holding `c`, or `|s|` when there is none. */
  function FirstOf(s: string, i: nat, c: char): (r: nat)
    requires i <= |s|
    ensures i <= r <= |s| && Avoids(s, i, r, c)
    ensures r < |s| ==> s[r] == c
    decreases |s| - i
  {
    if i == |s| || s[i] == c then i else FirstOf(s, i + 1, c)
  }

  /** The first index from `i` on that is not white space, or `|s|`. */
  function FirstNonWhite(s: string, i: nat): (r: nat)
    requires i <= |s|
    ensures i <= r <= |s| && WhiteBetween(s, i, r)
    ensures r < |s| ==> !IsWhitespace(s[r])
    decreases |s| - i
  {
    if i == |s| || !IsWhitespace(s[i]) then i else FirstNonWhite(s, i + 1)
  }

  /** The last index `k` with `lo <= k` and `k + |lit| <= hi` where `lit`
      matches. */
  function LastLit(s: string, lo: nat, hi: nat, lit: string): (r: Option<nat>)
    requires hi <= |s| && |lit| > 0
    ensures r.Some? ==> lo <= r.value && r.value + |lit| <= hi && LitAt(s, r.value, lit)
    ensures forall k | lo <= k && k + |lit| <= hi && LitAt(s, k, lit) :: r.Some? && k <= r.value
    decreases hi
  {
    if hi < lo + |lit| then None
    else if LitAt(s, hi - |lit|, lit) then Some(hi - |lit|)
    else LastLit(s, lo, hi - 1, lit)
  }

  /** Group 2 of a match whose white space ends at `w`, as the pair of
      keyword and extension positions: the extension is the last one before
      the next `<`, and the keyword the last one that still precedes it. */
  function NameAt(s: string, w: nat): Option<(nat, nat)>
    requires w <= |s|
  {
    var bound := FirstOf(s, w, '<');
    match LastLit(s, w, bound, EXTENSION)
    case None => None
    case Some(ext) =>
      match LastLit(s, w, ext, KEYWORD)
      case None => None
      case Some(keyword) => Some((keyword, ext))
  }

  /** The match a backtracking matcher finds from index `p`, if any: the
      quoted path and the tag end are forced, the white space is taken in
      full, and group 2 is what `NameAt` picks after it. */
  function MatchAt(s: string, p: nat): Option<LinkMatch> {
    if !LitAt(s, p, LINK_HEAD) then None
    else AfterHead(s, p, FirstOf(s, p + |LINK_HEAD|, '"'))
  }

  /** The rest of `MatchAt` once the closing quote of the path is found. */
  function AfterHead(s: string, p: nat, quote: nat): Option<LinkMatch>
    requires quote <= |s|
  {
    if quote == |s| || quote <= p + |LINK_HEAD| then None
    else AfterPath(s, p, quote, FirstOf(s, quote + 1, '>'))
  }

  /** The rest of `MatchAt` once the end of the tag is found. */
  function AfterPath(s: string, p: nat, quote: nat, close: nat): Option<LinkMatch>
    requires close <= |s|
  {
    if close == |s| then None
    else
      var nameStart := FirstNonWhite(s, close + 1);
      match NameAt(s, nameStart)
      case None => None
      case Some(pos) => Some(LinkMatch(p, quote, close, nameStart, pos.0, pos.1))
  }

  /** A literal match compares character by character. */
  lemma LitAtChar(s: string, k: int, lit: string, j: int)
    requires LitAt(s, k, lit) && 0 <= j < |lit|
    ensures AsciiUpper(s[k + j]) == AsciiUpper(lit[j])
  {
    assert Fold(s[k..k + |lit|])[j] == Fold(lit)[j];
  }

  /** Upper-casing changes no character outside the ASCII letters, so such
      a character of the pattern matches only itself. */
  lemma FoldFixed(c: char, d: char)
    requires AsciiUpper(c) == AsciiUpper(d) && !('a' <= d <= 'z') && !('A' <= d <= 'Z')
    ensures c == d
  {
  }

  /** Inside a matched literal there is no character that is not an ASCII
      letter and does not occur in the literal. */
  lemma LitAvoids(s: string, k: int, lit: string, c: char)
    requires LitAt(s, k, lit) && c !in lit && !('a' <= c <= 'z') && !('A' <= c <= 'Z')
    ensures Avoids(s, k, k + |lit|, c)
  {
    forall i | k <= i < k + |lit| ensures s[i] != c {
      var j := i - k;
      assert lit[j] != c;
      LitAtChar(s, k, lit, j);
    }
  }

  /** The matched keyword starts with a character that is not white space. */
  lemma KeywordStartsDark(s: string, k: int)
    requires LitAt(s, k, KEYWORD)
    ensures !IsWhitespace(s[k])
  {
    LitAtChar(s, k, KEYWORD, 0);
    FoldFixed(s[k], KEYWORD[0]);
  }

  /** The first occurrence of `c` is the one every earlier index avoids. */
  lemma FirstOfIs(s: string, i: nat, c: char, q: nat)
    requires i <= q < |s| && s[q] == c && Avoids(s, i, q, c)
    ensures FirstOf(s, i, c) == q
  {
  }

  /** Group 2 of a match `n`, looked for from any `w` between where its
      white space ends and where its keyword starts: `NameAt` finds keyword
      and extension positions at least as late as those of `n`. */
  lemma NameAtFirst(s: string, w: nat, n: LinkMatch)
    requires Parse(s, n) && n.nameStart <= w <= n.keyword
    ensures NameAt(s, w).Some?
    ensures n.keyword <= NameAt(s, w).value.0 && n.ext <= NameAt(s, w).value.1
  {
    var bound := FirstOf(s, w, '<');
    LitAvoids(s, n.keyword, KEYWORD, '<');
    LitAvoids(s, n.ext, EXTENSION, '<');
    forall i | w <= i < n.ext + |EXTENSION| ensures s[i] != '<' {
      if i < n.keyword {
      } else if i < n.keyword + |KEYWORD| {
      } else if i < n.ext {
      } else {
      }
    }
    assert n.ext + |EXTENSION| <= bound;
    var ext := LastLit(s, w, bound, EXTENSION);
    assert ext.Some? && n.ext <= ext.value;
    var keyword := LastLit(s, w, ext.value, KEYWORD);
    assert keyword.Some? && n.keyword <= keyword.value;
  }

  /** Any match starting at `p` is one `MatchAt` finds or one it tries
      after: the path and the tag end agree, and `MatchAt` takes at least
      as much white space, keyword position and extension position. */
  lemma MatchAtFirst(s: string, p: nat, n: LinkMatch)
    requires Parse(s, n) && n.start == p
    ensures MatchAt(s, p).Some? && TriedFirst(MatchAt(s, p).value, n)
  {
    MatchAtForced(s, p, n);
    var nameStart := FirstNonWhite(s, n.close + 1);
    NameStartWithin(s, n);
    NameAtFirst(s, nameStart, n);
  }

  /** The closing quote and the tag end of a match at `p` are the ones
      `MatchAt` finds. */
  lemma MatchAtForced(s: string, p: nat, n: LinkMatch)
    requires Parse(s, n) && n.start == p
    ensures MatchAt(s, p) == AfterPath(s, p, n.quote, n.close)
  {
    FirstOfIs(s, p + |LINK_HEAD|, '"', n.quote);
    assert MatchAt(s, p) == AfterHead(s, p, n.quote);
    AfterHeadForced(s, p, n.quote, n.close);
  }

  /** The first `>` after the closing quote is the tag end `AfterHead`
      finds. */
  lemma AfterHeadForced(s: string, p: nat, quote: nat, close: nat)
    requires p + |LINK_HEAD| < quote < close < |s| && s[close] == '>'
    requires Avoids(s, quote + 1, close, '>')
    ensures AfterHead(s, p, quote) == AfterPath(s, p, quote, close)
  {
    var c := FirstOf(s, quote + 1, '>');
    FirstOfIs(s, quote + 1, '>', close);
    assert c == close;
    assert !(quote == |s| || quote <= p + |LINK_HEAD|);
    assert AfterHead(s, p, quote) == AfterPath(s, p, quote, c);
  }

  /** Taking the white space in full stops at or after the white space of a
      match and no later than its keyword. */
  lemma NameStartWithin(s: string, n: LinkMatch)
    requires Parse(s, n)
    ensures n.nameStart <= FirstNonWhite(s, n.close + 1) <= n.keyword
  {
    KeywordStartsDark(s, n.keyword);
  }

  /** What `NameAt` finds completes a match. */
  lemma NameAtParses(s: string, w: nat)
    requires w <= |s| && NameAt(s, w).Some?
    ensures var (keyword, ext) := NameAt(s, w).value;
      w <= keyword && LitAt(s, keyword, KEYWORD) && Avoids(s, w, keyword, '<')
      && keyword + |KEYWORD| <= ext && LitAt(s, ext, EXTENSION)
      && Avoids(s, keyword + |KEYWORD|, ext, '<')
  {
    var bound := FirstOf(s, w, '<');
  }

  /** What `MatchAt` finds is a match. */
  lemma MatchAtParses(s: string, p: nat)
    requires MatchAt(s, p).Some?
    ensures Parse(s, MatchAt(s, p).value) && MatchAt(s, p).value.start == p
  {
    var m := MatchAt(s, p).value;
    NameAtParses(s, m.nameStart);
  }

  /** The leftmost match from index `p` on, in backtracking order. */
  function FindFrom(s: string, p: nat): (r: Option<LinkMatch>)
    ensures r.Some? ==> Parse(s, r.value) && p <= r.value.start
    ensures r.Some? ==> forall n | Parse(s, n) && p <= n.start :: TriedFirst(r.value, n)
    ensures r.None? ==> forall n | Parse(s, n) :: n.start < p
    decreases |s| + 1 - p
  {
    if p > |s| then None
    else match MatchAt(s, p)
      case Some(m) =>
        MatchAtLeads(s, p);
        Some(m)
      case None =>
        MatchAtNone(s, p);
        FindFrom(s, p + 1)
  }

  /** What `MatchAt` finds at `p` is a match tried before every other
      match that starts at `p` or later. */
  lemma MatchAtLeads(s: string, p: nat)
    requires MatchAt(s, p).Some?
    ensures Parse(s, MatchAt(s, p).value) && MatchAt(s, p).value.start == p
    ensures forall n | Parse(s, n) && p <= n.start :: TriedFirst(MatchAt(s, p).value, n)
  {
    MatchAtParses(s, p);
    forall n | Parse(s, n) && p == n.start ensures TriedFirst(MatchAt(s, p).value, n) {
      MatchAtFirst(s, p, n);
    }
  }

  /** When `MatchAt` finds nothing at `p`, no match starts there. */
  lemma MatchAtNone(s: string, p: nat)
    requires MatchAt(s, p).None?
    ensures forall n | Parse(s, n) :: n.start != p
  {
    forall n | Parse(s, n) && n.start == p ensures false {
      MatchAtFirst(s, p, n);
    }
  }

  /** `html.match(linkRegex)`: the reported match, or none when the pattern
      matches nowhere. */
  function FindLink(s: string): (r: Option<LinkMatch>)
    ensures r.Some? ==> Chosen(s, r.value)
    ensures r.None? <==> forall n :: !Parse(s, n)
  {
    FindFrom(s, 0)
  }

  /** The reported match takes all the white space after the tag: group 2
      starts at a character that is not white space. */
  lemma ChosenNameDark(s: string, m: LinkMatch)
    requires Chosen(s, m)
    ensures !IsWhitespace(s[m.nameStart])
  {
    KeywordStartsDark(s, m.keyword);
    if IsWhitespace(s[m.nameStart]) {
      var n := m.(nameStart := m.nameStart + 1);
      assert Parse(s, n);
    }
  }

  /** The file name ends with the `x` of the extension. */
  lemma NameGroupEnd(s: string, m: LinkMatch)
    requires Parse(s, m)
    ensures !IsWhitespace(s[m.ext + |EXTENSION| - 1])
  {
    LitAtChar(s, m.ext, EXTENSION, 4);
  }

  /** Trimming the captured file name of the reported match changes nothing. */
  lemma NameGroupTrimmed(s: string, m: LinkMatch)
    requires Chosen(s, m)
    ensures Trim(NameGroup(s, m)) == NameGroup(s, m)
  {
    ChosenNameDark(s, m);
    NameGroupEnd(s, m);
    TrimOfTrimmed(NameGroup(s, m));
  }

  /** The keyword has no ASCII letter, so it matches only itself. */
  lemma KeywordExact(s: string, k: int)
    requires LitAt(s, k, KEYWORD)
    ensures s[k..k + |KEYWORD|] == KEYWORD
  {
    forall j | 0 <= j < |KEYWORD| ensures s[k + j] == KEYWORD[j] {
      LitAtChar(s, k, KEYWORD, j);
      FoldFixed(s[k + j], KEYWORD[j]);
    }
  }

  /** The part of the pattern's head inside group 1 holds no `"`. */
  lemma PathHeadQuoteFree()
    ensures '"' !in LINK_HEAD[6..]
  {
    assert LINK_HEAD[6..] == "/fine/cmmn/file/fileDown.do?";
  }

  /** Folding commutes with dropping a prefix. */
  lemma FoldSuffix(x: string, j: nat)
    requires j <= |x|
    ensures Fold(x[j..]) == Fold(x)[j..]
  {
  }

  /** The tail of a matched literal matches where it stands. */
  lemma LitAtSuffix(s: string, k: int, lit: string, j: nat)
    requires LitAt(s, k, lit) && j <= |lit|
    ensures LitAt(s, k + j, lit[j..])
  {
    var a := s[k..k + |lit|];
    assert s[k + j..k + j + |lit[j..]|] == a[j..];
    FoldSuffix(a, j);
    FoldSuffix(lit, j);
  }

  /** Group 1 of a match: the endpoint and its `?` in some letter case, at
      least one more character, and no `"` anywhere. */
  lemma PathGroupShape(s: string, m: LinkMatch)
    requires Parse(s, m)
    ensures var g := PathGroup(s, m);
      && |g| > |LINK_HEAD| - 6
      && Fold(g[..|LINK_HEAD| - 6]) == Fold(LINK_HEAD[6..])
      && '"' !in g
  {
    var g := PathGroup(s, m);
    var n := |LINK_HEAD| - 6;
    PathHeadQuoteFree();
    LitAtSuffix(s, m.start, LINK_HEAD, 6);
    LitAvoids(s, m.start + 6, LINK_HEAD[6..], '"');
    assert g[..n] == s[m.start + 6..m.start + 6 + n];
    forall i | 0 <= i < |g| ensures g[i] != '"' {
      assert g[i] == s[m.start + 6 + i];
    }
  }

  /** Group 2 of a match: text without `<` that contains the keyword exactly
      and ends with the extension in some letter case. */
  lemma NameGroupShape(s: string, m: LinkMatch)
    requires Parse(s, m)
    ensures var g := NameGroup(s, m);
      && |g| >= |KEYWORD| + |EXTENSION|
      && Includes(g, KEYWORD)
      && Fold(g[|g| - |EXTENSION|..]) == Fold(EXTENSION)
      && '<' !in g
  {
    var g := NameGroup(s, m);
    KeywordExact(s, m.keyword);
    var k := m.keyword - m.nameStart;
    forall j | 0 <= j < |KEYWORD| ensures g[k + j] == KEYWORD[j] {
      assert g[k + j] == s[m.keyword + j];
    }
    assert g[k..k + |KEYWORD|] == KEYWORD;
    assert OccursAt(g, KEYWORD, k);
    assert g[|g| - |EXTENSION|..] == s[m.ext..m.ext + |EXTENSION|];
    LitAvoids(s, m.keyword, KEYWORD, '<');
    LitAvoids(s, m.ext, EXTENSION, '<');
    forall i | 0 <= i < |g| ensures g[i] != '<' {
      assert g[i] == s[m.nameStart + i];
    }
  }

  // ---------------------------------------------------------------
  // Unescaping and the download link
  // ---------------------------------------------------------------

  const ESCAPED_AMP: string := "&amp;"

  /** `path.replace(/&amp;/g, "&")`: occurrences of `&amp;` replaced from left
      to right, each scan resuming after the text it replaced. */
  function ReplaceAmp(s: string): (r: string)
    ensures |r| <= |s|
    decreases |s|
  {
    if |s| >= 5 && s[..5] == ESCAPED_AMP then "&" + ReplaceAmp(s[5..])
    else if s == [] then []
    else [s[0]] + ReplaceAmp(s[1..])
  }

  /** HTML attribute escaping of `&`, the encoding `ReplaceAmp` undoes. */
  function EscapeAmp(s: string): (r: string)
    ensures |r| >= |s|
  {
    if s == [] then []
    else if s[0] == '&' then ESCAPED_AMP + EscapeAmp(s[1..])
    else [s[0]] + EscapeAmp(s[1..])
  }

  /** Unescaping recovers every escaped path. */
  lemma {:induction false} UnescapeEscaped(s: string)
    ensures ReplaceAmp(EscapeAmp(s)) == s
  {
    if s != [] {
      UnescapeEscaped(s[1..]);
      var e := EscapeAmp(s);
      if s[0] == '&' {
        assert e[..5] == ESCAPED_AMP && e[5..] == EscapeAmp(s[1..]);
      } else {
        assert e[0] == s[0] && e[1..] == EscapeAmp(s[1..]);
      }
    }
  }

  /** A leading part without `&` comes through unescaping unchanged. */
  lemma ReplaceAmpPrefix(s: string, n: nat)
    requires n <= |s| && '&' !in s[..n]
    ensures ReplaceAmp(s) == s[..n] + ReplaceAmp(s[n..])
  {
    forall i | 0 <= i < n ensures s[i] != '&' {
      assert s[..n][i] == s[i];
    }
    ReplaceAmpPrefixAt(s, n);
  }

  /** `ReplaceAmpPrefix` with the leading part stated position by position. */
  lemma {:induction false} ReplaceAmpPrefixAt(s: string, n: nat)
    requires n <= |s| && forall i | 0 <= i < n :: s[i] != '&'
    ensures ReplaceAmp(s) == s[..n] + ReplaceAmp(s[n..])
  {
    if n > 0 {
      var t := s[1..];
      assert forall i | 0 <= i < n - 1 :: t[i] == s[i + 1];
      ReplaceAmpPrefixAt(t, n - 1);
      ReplaceAmpPlainHead(s);
      assert t[n - 1..] == s[n..];
      PrefixStep(s, n, ReplaceAmp(s), ReplaceAmp(s[n..]));
    }
  }

  /** A first character other than `&` is copied as it is. */
  lemma ReplaceAmpPlainHead(s: string)
    requires s != [] && s[0] != '&'
    ensures ReplaceAmp(s) == [s[0]] + ReplaceAmp(s[1..])
  {
    if |s| >= 5 {
      assert s[..5][0] != ESCAPED_AMP[0];
    }
  }

  /** Text without `&` is left as it is. */
  lemma ReplaceAmpPlain(s: string)
    requires '&' !in s
    ensures ReplaceAmp(s) == s
  {
    ReplaceAmpPrefix(s, |s|);
    assert s[..|s|] == s;
  }

  /** The replacement is a single pass: a doubly escaped ampersand keeps one
      level of escaping. */
  lemma ReplaceAmpDoubleEscaped()
    ensures ReplaceAmp("&amp;amp;") == "&amp;"
  {
    var s := "&amp;amp;";
    assert s[..5] == ESCAPED_AMP && s[5..] == "amp;";
    ReplaceAmpPlain("amp;");
  }

  /** An escaped ampersand between two plain parts, as in an escaped query
      string, comes out as a bare `&`. */
  lemma ReplaceAmpJoin(a: string, b: string)
    requires '&' !in a && '&' !in b
    ensures ReplaceAmp(a + ESCAPED_AMP + b) == a + "&" + b
  {
    var s := a + ESCAPED_AMP + b;
    assert s[..|a|] == a;
    ReplaceAmpPrefix(s, |a|);
    var t := s[|a|..];
    assert t == ESCAPED_AMP + b;
    assert t[..5] == ESCAPED_AMP && t[5..] == b;
    ReplaceAmpPlain(b);
  }

  /** What the page yields: the absolute workbook URL and its file name. */
  datatype DownloadLink = DownloadLink(url: string, fileName: string)

  /** `extractExcelDownloadUrl`: finds the reported match, unescapes the
      path, trims the file name, and accepts the path only when it starts,
      case-sensitively, with the allowed download endpoint, so that the URL
      always points at that endpoint of the portal. */
  function ExtractExcelDownloadUrl(html: string): (r: Result<DownloadLink, Error>)
    ensures r.Failure? ==> r.error == LinkNotFound || r.error == UntrustedDownloadPath
    ensures r == Failure(LinkNotFound) <==> forall n :: !Parse(html, n)
    ensures r.Success? ==> StartsWith(r.value.url, FINE_BASE_URL + FINE_ALLOWED_PATH_PREFIX)
  {
    match FindLink(html)
    case None => Failure(LinkNotFound)
    case Some(m) =>
      var path := ReplaceAmp(PathGroup(html, m));
      var fileName := Trim(NameGroup(html, m));
      if !StartsWith(path, FINE_ALLOWED_PATH_PREFIX) then Failure(UntrustedDownloadPath)
      else
        StartsWithAfter(FINE_BASE_URL, path, FINE_ALLOWED_PATH_PREFIX);
        Success(DownloadLink(FINE_BASE_URL + path, fileName))
  }

  /** The escaped path of a match starts with the endpoint as the pattern
      matched it, which holds no `&`, so unescaping keeps that part. */
  lemma PathHeadKept(s: string, m: LinkMatch)
    requires Parse(s, m)
    ensures |PathGroup(s, m)| > |FINE_ALLOWED_PATH_PREFIX|
    ensures StartsWith(ReplaceAmp(PathGroup(s, m)), FINE_ALLOWED_PATH_PREFIX)
      <==> PathGroup(s, m)[..|FINE_ALLOWED_PATH_PREFIX|] == FINE_ALLOWED_PATH_PREFIX
  {
    var g := PathGroup(s, m);
    var n := |LINK_HEAD| - 6;
    LitAvoids(s, m.start, LINK_HEAD, '&');
    assert '&' !in g[..n] by {
      forall j | 0 <= j < n ensures g[..n][j] != '&' {
        assert g[..n][j] == s[m.start + 6 + j];
      }
    }
    ReplaceAmpPrefix(g, n);
    assert ReplaceAmp(g)[..|FINE_ALLOWED_PATH_PREFIX|] == g[..|FINE_ALLOWED_PATH_PREFIX|];
  }

  /** In terms of the reported match: the link is accepted exactly when the
      matched endpoint has the allowed spelling (the pattern also lets other
      letter cases through, which are then refused), and then the URL is the
      base address followed by the unescaped path and the file name is
      group 2 as captured. */
  lemma ExtractOfChosen(html: string, m: LinkMatch)
    requires Chosen(html, m)
    ensures ExtractExcelDownloadUrl(html).Success?
      <==> PathGroup(html, m)[..|FINE_ALLOWED_PATH_PREFIX|] == FINE_ALLOWED_PATH_PREFIX
    ensures ExtractExcelDownloadUrl(html).Failure? ==>
      ExtractExcelDownloadUrl(html).error == UntrustedDownloadPath
    ensures ExtractExcelDownloadUrl(html).Success? ==>
      (ExtractExcelDownloadUrl(html).value ==
       DownloadLink(FINE_BASE_URL + ReplaceAmp(PathGroup(html, m)), NameGroup(html, m)))
  {
    var found := FindLink(html);
    assert found.Some?;
    ChosenUnique(html, m, found.value);
    PathHeadKept(html, m);
    NameGroupTrimmed(html, m);
  }

  /** Folding works piece by piece. */
  lemma FoldAppend(a: string, b: string)
    ensures Fold(a + b) == Fold(a) + Fold(b)
  {
  }

  /** A page holding one link: `head` is the text the pattern's head
      matched, `tail` the rest of the query, and the link text is the bare
      keyword with the extension. */
  function LinkPage(head: string, tail: string): string {
    head + tail + LINK_REST
  }

  /** Where the pattern matches on such a page. */
  lemma LinkPageMatch(head: string, tail: string)
    requires |head| == |LINK_HEAD| && Fold(head) == Fold(LINK_HEAD)
    requires tail != [] && '"' !in tail
    ensures var q := |LINK_HEAD| + |tail|;
      FindLink(LinkPage(head, tail)) == Some(LinkMatch(0, q, q + 1, q + 2, q + 2, q + 7))
  {
    var html := LinkPage(head, tail);
    var q := |LINK_HEAD| + |tail|;
    LinkPageHead(head, tail);
    LinkPageName(head, tail);
    var m := LinkMatch(0, q, q + 1, q + 2, q + 2, q + 7);
    assert MatchAt(html, 0) == AfterHead(html, 0, q);
    assert AfterHead(html, 0, q) == AfterPath(html, 0, q, q + 1) == Some(m);
  }

  /** On such a page the pattern's head matches at the start and the path
      runs up to the quote after `tail`. */
  lemma LinkPageHead(head: string, tail: string)
    requires |head| == |LINK_HEAD| && Fold(head) == Fold(LINK_HEAD)
    requires tail != [] && '"' !in tail
    ensures var html := LinkPage(head, tail);
      LitAt(html, 0, LINK_HEAD) && FirstOf(html, |LINK_HEAD|, '"') == |LINK_HEAD| + |tail|
  {
    var html := LinkPage(head, tail);
    var q := |LINK_HEAD| + |tail|;
    assert html == (head + tail) + LINK_REST;
    assert html[0..|LINK_HEAD|] == head;
    forall k | |LINK_HEAD| <= k < q ensures html[k] != '"' {
      assert html[k] == tail[k - |LINK_HEAD|];
    }
    assert html[q] == '"';
    FirstOfIs(html, |LINK_HEAD|, '"', q);
  }

  /** On such a page the tag ends right after the quote, and group 2 is the
      bare keyword followed by the extension. */
  lemma LinkPageName(head: string, tail: string)
    ensures var html := LinkPage(head, tail);
      var q := |head| + |tail|;
      && q + 1 < |html|
      && FirstOf(html, q + 1, '>') == q + 1
      && FirstNonWhite(html, q + 2) == q + 2
      && NameAt(html, q + 2) == Some((q + 2, q + 7))
  {
    var html := LinkPage(head, tail);
    var q := |head| + |tail|;
    LinkPageRest(head + tail);
    assert html == (head + tail) + LINK_REST;
    FirstOfIs(html, q + 1, '>', q + 1);
    KeywordStartsDark(html, q + 2);
    NameAtBare(html, q + 2);
  }

  /** What follows the query on such a page. */
  const LINK_REST: string := "\">" + KEYWORD + EXTENSION + "</a>"

  /** The characters of `LINK_REST` after any text. */
  lemma LinkPageRest(pre: string)
    ensures var html := pre + LINK_REST;
      var q := |pre|;
      && q + 12 < |html|
      && html[q + 1] == '>'
      && LitAt(html, q + 2, KEYWORD) && LitAt(html, q + 7, EXTENSION)
      && html[q + 12] == '<'
      && Avoids(html, q + 2, q + 12, '<')
  {
    var html := pre + LINK_REST;
    var q := |pre|;
    assert html[q..] == LINK_REST;
    assert html[q + 2..q + 7] == KEYWORD;
    assert html[q + 7..q + 12] == EXTENSION;
    forall k | q + 2 <= k < q + 12 ensures html[k] != '<' {
      assert html[k] == LINK_REST[k - q];
    }
  }

  /** Group 2 found right at `w`, the keyword directly followed by the
      extension and then a `<`. */
  lemma NameAtBare(s: string, w: nat)
    requires LitAt(s, w, KEYWORD) && LitAt(s, w + |KEYWORD|, EXTENSION)
    requires w + 10 < |s| && s[w + 10] == '<' && Avoids(s, w, w + 10, '<')
    ensures NameAt(s, w) == Some((w, w + 5))
  {
    FirstOfIs(s, w, '<', w + 10);
    assert LastLit(s, w, w + 10, EXTENSION) == Some(w + 5);
    assert LastLit(s, w, w + 5, KEYWORD) == Some(w);
  }

  /** What such a page yields: the link when the endpoint is spelled as
      allowed, and a refused path when it is spelled in other letter cases. */
  lemma LinkPageExtract(head: string, tail: string)
    requires |head| == |LINK_HEAD| && Fold(head) == Fold(LINK_HEAD)
    requires tail != [] && '"' !in tail
    ensures ExtractExcelDownloadUrl(LinkPage(head, tail)) ==
      if head[6..6 + |FINE_ALLOWED_PATH_PREFIX|] == FINE_ALLOWED_PATH_PREFIX
      then Success(DownloadLink(FINE_BASE_URL + ReplaceAmp(head[6..] + tail), KEYWORD + EXTENSION))
      else Failure(UntrustedDownloadPath)
  {
    var html := LinkPage(head, tail);
    var q := |LINK_HEAD| + |tail|;
    var m := LinkMatch(0, q, q + 1, q + 2, q + 2, q + 7);
    var path := head[6..] + tail;
    LinkPageGroups(head, tail);
    assert path[..|FINE_ALLOWED_PATH_PREFIX|] == head[6..6 + |FINE_ALLOWED_PATH_PREFIX|];
    ExtractOfPieces(html, m, path, KEYWORD + EXTENSION);
  }

  /** The reported match of such a page and its two groups. */
  lemma LinkPageGroups(head: string, tail: string)
    requires |head| == |LINK_HEAD| && Fold(head) == Fold(LINK_HEAD)
    requires tail != [] && '"' !in tail
    ensures var html := LinkPage(head, tail);
      var q := |LINK_HEAD| + |tail|;
      var m := LinkMatch(0, q, q + 1, q + 2, q + 2, q + 7);
      && Chosen(html, m)
      && PathGroup(html, m) == head[6..] + tail
      && NameGroup(html, m) == KEYWORD + EXTENSION
  {
    LinkPageParts(head, tail);
    LinkPageMatch(head, tail);
  }

  /** `ExtractOfChosen` in terms of the two captured groups. */
  lemma ExtractOfPieces(html: string, m: LinkMatch, path: string, name: string)
    requires Chosen(html, m)
    requires PathGroup(html, m) == path && NameGroup(html, m) == name
    ensures |path| > |FINE_ALLOWED_PATH_PREFIX|
    ensures ExtractExcelDownloadUrl(html) ==
      if path[..|FINE_ALLOWED_PATH_PREFIX|] == FINE_ALLOWED_PATH_PREFIX
      then Success(DownloadLink(FINE_BASE_URL + ReplaceAmp(path), name))
      else Failure(UntrustedDownloadPath)
  {
    PathHeadKept(html, m);
    ExtractOfChosen(html, m);
  }

  /** The captured pieces of such a page. */
  lemma LinkPageParts(head: string, tail: string)
    requires |head| == |LINK_HEAD|
    ensures var q := |LINK_HEAD| + |tail|;
      LinkPage(head, tail)[6..q] == head[6..] + tail
      && (head[6..] + tail)[..27] == head[6..33]
      && LinkPage(head, tail)[q + 2..q + 12] == KEYWORD + EXTENSION
  {
    var q := |LINK_HEAD| + |tail|;
    var html := LinkPage(head, tail);
    assert html == (head + tail) + LINK_REST;
    assert html[..q] == head + tail;
    assert html[6..q] == (head + tail)[6..];
  }

  /** Changing the case of one letter does not change the folded text. */
  lemma FoldSwap(a: string, b: string, c: char, d: char)
    requires AsciiUpper(c) == AsciiUpper(d)
    ensures Fold(a + [c] + b) == Fold(a + [d] + b)
  {
    FoldAppend(a + [c], b);
    FoldAppend(a, [c]);
    FoldAppend(a + [d], b);
    FoldAppend(a, [d]);
  }

  /** The pattern's head with the endpoint spelled with a capital `F`,
      `href="/Fine/cmmn/file/fileDown.do?`. */
  const CAPITALISED_HEAD: string := LINK_HEAD[..7] + "F" + LINK_HEAD[8..]

  /** The capitalised head folds like the pattern's head. */
  lemma CapitalisedHeadFolds()
    ensures |CAPITALISED_HEAD| == |LINK_HEAD| && Fold(CAPITALISED_HEAD) == Fold(LINK_HEAD)
  {
    var pre, post := LINK_HEAD[..7], LINK_HEAD[8..];
    assert LINK_HEAD[7] == 'f';
    assert LINK_HEAD == pre + ['f'] + post;
    FoldSwap(pre, post, 'F', 'f');
  }

  /** The capitalised head does not carry the allowed endpoint. */
  lemma CapitalisedHeadDiffers()
    ensures CAPITALISED_HEAD[6..6 + |FINE_ALLOWED_PATH_PREFIX|] != FINE_ALLOWED_PATH_PREFIX
  {
    assert FINE_ALLOWED_PATH_PREFIX[1] == 'f';
    assert CAPITALISED_HEAD[7] == 'F';
    assert CAPITALISED_HEAD[6..33][1] == 'F';
  }

  /** A link whose endpoint is spelled with a capital `F` is refused: the
      pattern, which ignores case, matches it, and the case-sensitive prefix
      check then rejects the path. */
  lemma CapitalisedEndpointRefused(tail: string)
    requires tail != [] && '"' !in tail
    ensures ExtractExcelDownloadUrl(LinkPage(CAPITALISED_HEAD, tail)) == Failure(UntrustedDownloadPath)
  {
    CapitalisedHeadFolds();
    CapitalisedHeadDiffers();
    LinkPageExtract(CAPITALISED_HEAD, tail);
  }

  /** The pattern's head carries the allowed endpoint and no `&`. */
  lemma LinkHeadAllowed()
    ensures LINK_HEAD[6..6 + |FINE_ALLOWED_PATH_PREFIX|] == FINE_ALLOWED_PATH_PREFIX
    ensures '&' !in LINK_HEAD
  {
    assert LINK_HEAD == "href=\"" + FINE_ALLOWED_PATH_PREFIX + "?";
    assert LINK_HEAD[6..6 + |FINE_ALLOWED_PATH_PREFIX|] == ("href=\"" + FINE_ALLOWED_PATH_PREFIX)[6..];
  }

  /** A link with the endpoint spelled as allowed and a query without
      escapes yields the portal URL of that path and the link text as the
      file name. */
  lemma AllowedLinkAccepted(tail: string)
    requires tail != [] && '"' !in tail && '&' !in tail
    ensures ExtractExcelDownloadUrl(LinkPage(LINK_HEAD, tail))
      == Success(DownloadLink(FINE_BASE_URL + (LINK_HEAD[6..] + tail), KEYWORD + EXTENSION))
  {
    LinkHeadAllowed();
    PlainPath(tail);
    AllowedHeadAccepted(LINK_HEAD, tail);
  }

  /** `LinkPageExtract` for a head that carries the allowed endpoint and a
      path that needs no unescaping. */
  lemma AllowedHeadAccepted(head: string, tail: string)
    requires |head| == |LINK_HEAD| && Fold(head) == Fold(LINK_HEAD)
    requires head[6..6 + |FINE_ALLOWED_PATH_PREFIX|] == FINE_ALLOWED_PATH_PREFIX
    requires tail != [] && '"' !in tail
    requires ReplaceAmp(head[6..] + tail) == head[6..] + tail
    ensures ExtractExcelDownloadUrl(LinkPage(head, tail))
      == Success(DownloadLink(FINE_BASE_URL + (head[6..] + tail), KEYWORD + EXTENSION))
  {
    LinkPageExtract(head, tail);
  }

  /** The path of such a link needs no unescaping. */
  lemma PlainPath(tail: string)
    requires '&' !in tail
    ensures ReplaceAmp(LINK_HEAD[6..] + tail) == LINK_HEAD[6..] + tail
  {
    LinkHeadAllowed();
    var path := LINK_HEAD[6..] + tail;
    assert '&' !in path by {
      forall c | c in path ensures c != '&' {
        if c in LINK_HEAD[6..] {
          var i :| 0 <= i < |LINK_HEAD| - 6 && LINK_HEAD[6..][i] == c;
          assert LINK_HEAD[6 + i] == c;
        }
      }
    }
    ReplaceAmpPlain(path);
  }
}
