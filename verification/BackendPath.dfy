/** `validateBackendPath`: URL splitting and percent-decoding of the raw path, and the lexical cleaning of the
    decoded one. */
module BackendPath {
  datatype PathError = NoLeadingSlash | ProtocolRelative | InvalidUrl | AbsoluteUrl | HasHost | Traversal

  datatype Result = Ok(path: string) | Err(error: PathError)

  // ---------------------------------------------------------------------------------------------
  // Segments
  // ---------------------------------------------------------------------------------------------

  /** The pieces between slashes; always at least one. */
  function Split(s: string): (segs: seq<string>)
    ensures |segs| >= 1
    ensures forall x :: x in segs ==> '/' !in x
  {
    if s == "" then [""]
    else
      var rest := Split(s[1..]);
      if s[0] == '/' then [""] + rest else [[s[0]] + rest[0]] + rest[1..]
  }

  function Join(segs: seq<string>): string {
    if segs == [] then "" else if |segs| == 1 then segs[0] else segs[0] + "/" + Join(segs[1..])
  }

  predicate RealName(s: string) {
    s != "" && s != "." && s != ".."
  }

  predicate AllReal(segs: seq<string>) {
    forall x :: x in segs ==> RealName(x)
  }

  /** One segment applied to a stack of names: empty and "." do nothing, ".." pops, and popping at the root
      does nothing. */
  function Push(stack: seq<string>, s: string): seq<string> {
    if s == "" || s == "." then stack
    else if s == ".." then if stack == [] then [] else stack[..|stack| - 1]
    else stack + [s]
  }

  function Resolve(stack: seq<string>, segs: seq<string>): seq<string>
    decreases |segs|
  {
    if segs == [] then stack else Resolve(Push(stack, segs[0]), segs[1..])
  }

  predicate Rooted(p: string) {
    p != "" && p[0] == '/'
  }

  /** Cleaning a rooted path. */
  function Clean(p: string): (c: string)
    requires Rooted(p)
    ensures Rooted(c)
  {
    "/" + Join(Resolve([], Split(p)))
  }

  // The documented rules, as rewriting

  /** One rule applied at segment `i`: drop an empty or "." segment, drop a name with the ".." after it, or
      drop a ".." at the root. */
  ghost predicate Rewrites(a: seq<string>, i: nat, b: seq<string>) {
    && i < |a|
    && (|| ((a[i] == "" || a[i] == ".") && b == a[..i] + a[i + 1..])
        || (a[i] == ".." && i == 0 && b == a[1..])
        || (a[i] == ".." && i > 0 && RealName(a[i - 1]) && b == a[..i - 1] + a[i + 1..]))
  }

  /** No rule applies anywhere. */
  ghost predicate Stuck(a: seq<string>) {
    forall i, b :: !Rewrites(a, i, b)
  }

  ghost predicate OneRule(a: seq<string>, b: seq<string>) {
    exists i: nat :: Rewrites(a, i, b)
  }

  /** Each list comes from the one before it by one rule. */
  ghost predicate Derivation(d: seq<seq<string>>) {
    d != [] && (|d| > 1 ==> OneRule(d[0], d[1]) && Derivation(d[1..]))
  }

  lemma {:induction false} ResolveAppend(stack: seq<string>, a: seq<string>, b: seq<string>)
    ensures Resolve(stack, a + b) == Resolve(Resolve(stack, a), b)
    decreases |a|
  {
    if a == [] {
      assert a + b == b;
    } else {
      assert (a + b)[1..] == a[1..] + b;
      ResolveAppend(Push(stack, a[0]), a[1..], b);
    }
  }

  /** No rule changes what the segments resolve to. */
  lemma RewriteKeepsMeaning(a: seq<string>, i: nat, b: seq<string>)
    requires Rewrites(a, i, b)
    ensures Resolve([], a) == Resolve([], b)
  {
    if a[i] == ".." && i > 0 {
      assert a == a[..i - 1] + ([a[i - 1], ".."] + a[i + 1..]);
      var stack := Resolve([], a[..i - 1]);
      ResolveAppend([], a[..i - 1], [a[i - 1], ".."] + a[i + 1..]);
      ResolveAppend(stack, [a[i - 1], ".."], a[i + 1..]);
      NameAndParent(stack, a[i - 1]);
      ResolveAppend([], a[..i - 1], a[i + 1..]);
    } else {
      assert a == a[..i] + ([a[i]] + a[i + 1..]);
      assert b == a[..i] + a[i + 1..];
      ResolveAppend([], a[..i], [a[i]] + a[i + 1..]);
      ResolveAppend(Resolve([], a[..i]), [a[i]], a[i + 1..]);
      ResolveAppend([], a[..i], a[i + 1..]);
    }
  }

  lemma NameAndParent(stack: seq<string>, name: string)
    requires RealName(name)
    ensures Resolve(stack, [name, ".."]) == stack
  {
    ResolveAppend(stack, [name], [".."]);
    assert [name] + [".."] == [name, ".."];
    assert Push(stack + [name], "..") == stack;
  }

  lemma {:induction false} ResolveReal(stack: seq<string>, segs: seq<string>)
    requires AllReal(segs)
    ensures Resolve(stack, segs) == stack + segs
    decreases |segs|
  {
    if segs != [] {
      assert segs[0] in segs;
      ResolveReal(stack + [segs[0]], segs[1..]);
      assert stack + [segs[0]] + segs[1..] == stack + segs;
    }
  }

  lemma StuckIsReal(a: seq<string>)
    requires Stuck(a)
    ensures AllReal(a)
  {
    forall k | 0 <= k < |a|
      ensures RealName(a[k])
    {
      StuckPrefixReal(a, k + 1);
    }
  }

  lemma {:induction false} StuckPrefixReal(a: seq<string>, n: nat)
    requires Stuck(a) && n <= |a|
    ensures forall k :: 0 <= k < n ==> RealName(a[k])
  {
    if n > 0 {
      StuckPrefixReal(a, n - 1);
      var i := n - 1;
      assert !Rewrites(a, i, a[..i] + a[i + 1..]);
      if i == 0 {
        assert !Rewrites(a, i, a[1..]);
      } else {
        assert !Rewrites(a, i, a[..i - 1] + a[i + 1..]);
      }
    }
  }

  /** Whatever rules are applied, in whatever order, once none applies any more the result is the stack
      resolution of the segments the derivation started from. */
  lemma {:induction false} AnyDerivationResolves(d: seq<seq<string>>)
    requires Derivation(d) && Stuck(d[|d| - 1])
    ensures d[|d| - 1] == Resolve([], d[0])
    decreases |d|
  {
    if |d| == 1 {
      StuckIsReal(d[0]);
      ResolveReal([], d[0]);
    } else {
      var i: nat :| Rewrites(d[0], i, d[1]);
      RewriteKeepsMeaning(d[0], i, d[1]);
      AnyDerivationResolves(d[1..]);
    }
  }

  /** And some derivation gets there. */
  lemma {:induction false} SomeDerivationEnds(a: seq<string>) returns (d: seq<seq<string>>)
    ensures Derivation(d) && d[0] == a && Stuck(d[|d| - 1])
    decreases |a|
  {
    if Stuck(a) {
      d := [a];
    } else {
      var i, b :| Rewrites(a, i, b);
      var rest := SomeDerivationEnds(b);
      d := [a] + rest;
      assert d[1..] == rest;
    }
  }

  // Normal form

  lemma {:induction false} ResolveIsReal(stack: seq<string>, segs: seq<string>)
    requires AllReal(stack)
    ensures AllReal(Resolve(stack, segs))
    ensures forall x :: x in Resolve(stack, segs) ==> x in stack || x in segs
    decreases |segs|
  {
    if segs != [] {
      assert segs[0] in segs;
      ResolveIsReal(Push(stack, segs[0]), segs[1..]);
    }
  }

  lemma {:induction false} SplitOfName(s: string)
    requires '/' !in s
    ensures Split(s) == [s]
  {
    if s != "" {
      SplitOfName(s[1..]);
      assert [s[0]] + s[1..] == s;
    }
  }

  lemma {:induction false} SplitAtSlash(a: string, b: string)
    requires '/' !in a
    ensures Split(a + "/" + b) == [a] + Split(b)
  {
    var s := a + "/" + b;
    if a == "" {
      assert s[1..] == b;
    } else {
      assert s[1..] == a[1..] + "/" + b;
      SplitAtSlash(a[1..], b);
      assert [a[0]] + a[1..] == a;
    }
  }

  lemma {:induction false} SplitJoin(segs: seq<string>)
    requires segs != [] && forall x :: x in segs ==> '/' !in x
    ensures Split(Join(segs)) == segs
  {
    if |segs| == 1 {
      SplitOfName(segs[0]);
    } else {
      SplitJoin(segs[1..]);
      SplitAtSlash(segs[0], Join(segs[1..]));
    }
  }

  /** The cleaned path's segments are exactly the resolved names behind the root. */
  lemma CleanSegments(p: string)
    requires Rooted(p)
    ensures var names := Resolve([], Split(p));
            && AllReal(names)
            && Clean(p) == "/" + Join(names)
            && Split(Clean(p)) == [""] + if names == [] then [""] else names
  {
    var names := Resolve([], Split(p));
    ResolveIsReal([], Split(p));
    if names != [] {
      SplitJoin(names);
    }
    SplitAtSlash("", Join(names));
    assert "" + "/" + Join(names) == Clean(p);
  }

  lemma {:induction false} ResolvedStays(names: seq<string>)
    requires AllReal(names)
    ensures Resolve([], [""] + if names == [] then [""] else names) == names
  {
    if names == [] {
      ResolveAppend([], [""], [""]);
    } else {
      ResolveAppend([], [""], names);
      ResolveReal([], names);
    }
  }

  /** Cleaning is a normal form: a fixed point, and never a protocol-relative path. */
  lemma CleanIsNormal(p: string)
    requires Rooted(p)
    ensures Clean(Clean(p)) == Clean(p)
    ensures !("//" <= Clean(p))
  {
    var names := Resolve([], Split(p));
    CleanSegments(p);
    ResolvedStays(names);
    if names != [] {
      assert names[0] in names;
      assert names[0] != "" && '/' !in names[0] by { ResolveIsReal([], Split(p)); }
      assert Join(names)[0] == names[0][0];
      assert Clean(p)[1] == names[0][0];
    }
  }

  // ---------------------------------------------------------------------------------------------
  // URL splitting and decoding
  // ---------------------------------------------------------------------------------------------

  /** The text before and after the first `c`. */
  function Cut(s: string, c: char): (r: (string, string))
    ensures c !in r.0
    ensures c !in s ==> r == (s, "")
    ensures c in s ==> s == r.0 + [c] + r.1
  {
    if s == "" then ("", "")
    else if s[0] == c then ("", s[1..])
    else
      assert s == [s[0]] + s[1..];
      var rest := Cut(s[1..], c);
      ([s[0]] + rest.0, rest.1)
  }

  function HexValue(c: char): (v: int)
    ensures -1 <= v < 16
  {
    if '0' <= c <= '9' then c as int - '0' as int
    else if 'a' <= c <= 'f' then c as int - 'a' as int + 10
    else if 'A' <= c <= 'F' then c as int - 'A' as int + 10
    else -1
  }

  datatype Decoded = Text(text: string) | Malformed

  /** Percent-decoding; a `%` without two hexadecimal digits after it is an error. */
  function Unescape(s: string): (r: Decoded)
    ensures r.Text? ==> |r.text| <= |s|
    ensures '%' !in s ==> r == Text(s)
    ensures r.Text? && '%' in s ==> |r.text| < |s|
    ensures Rooted(s) && r.Text? ==> Rooted(r.text)
  {
    if s == "" then Text("")
    else if s[0] != '%' then
      var rest := Unescape(s[1..]);
      assert s == [s[0]] + s[1..];
      if rest.Text? then Text([s[0]] + rest.text) else Malformed
    else if |s| < 3 || HexValue(s[1]) < 0 || HexValue(s[2]) < 0 then Malformed
    else
      var rest := Unescape(s[3..]);
      if rest.Text? then Text([(16 * HexValue(s[1]) + HexValue(s[2])) as char] + rest.text) else Malformed
  }

  // Percent-encoding, for comparison

  /** How a character is written: as it is, or escaped with two digits, each in either case. */
  datatype Style = Plain | Escaped(upperHigh: bool, upperLow: bool)

  function HexDigit(n: nat, upper: bool): char
    requires n < 16
  {
    if upper then "0123456789ABCDEF"[n] else "0123456789abcdef"[n]
  }

  /** A percent sign must be escaped; what is escaped is a byte. */
  predicate CanWrite(c: char, style: Style) {
    if style.Plain? then c != '%' else c < 256 as char
  }

  function Write(c: char, style: Style): string
    requires CanWrite(c, style)
  {
    match style
    case Plain => [c]
    case Escaped(high, low) => ['%', HexDigit(c as int / 16, high), HexDigit(c as int % 16, low)]
  }

  function Escape(s: string, styles: seq<Style>): string
    requires |s| == |styles| && forall i :: 0 <= i < |s| ==> CanWrite(s[i], styles[i])
  {
    if s == "" then "" else Write(s[0], styles[0]) + Escape(s[1..], styles[1..])
  }

  lemma HexValueOfDigit(n: nat, upper: bool)
    requires n < 16
    ensures HexValue(HexDigit(n, upper)) == n
  {
  }

  lemma ReadsTriple(a: char, b: char, rest: string)
    requires HexValue(a) >= 0 && HexValue(b) >= 0
    ensures Unescape(['%', a, b] + rest) ==
            if Unescape(rest).Text? then Text([(16 * HexValue(a) + HexValue(b)) as char] + Unescape(rest).text)
            else Malformed
  {
    var s := ['%', a, b] + rest;
    assert s[0] == '%' && s[1] == a && s[2] == b && s[3..] == rest;
  }

  lemma ReadsOne(c: char, style: Style, rest: string)
    requires CanWrite(c, style)
    ensures Unescape(Write(c, style) + rest) ==
            if Unescape(rest).Text? then Text([c] + Unescape(rest).text) else Malformed
  {
    var s := Write(c, style) + rest;
    if style.Plain? {
      assert s[0] == c && s[1..] == rest;
    } else {
      var (high, low) := (c as int / 16, c as int % 16);
      HexValueOfDigit(high, style.upperHigh);
      HexValueOfDigit(low, style.upperLow);
      ReadsTriple(HexDigit(high, style.upperHigh), HexDigit(low, style.upperLow), rest);
      assert c as int == 16 * high + low;
      hide HexValue, HexDigit, Unescape;
    }
  }

  /** Decoding undoes encoding, whichever characters are escaped and whatever the case of the digits. */
  lemma {:induction false} UnescapeUndoesEscape(s: string, styles: seq<Style>)
    requires |s| == |styles| && forall i :: 0 <= i < |s| ==> CanWrite(s[i], styles[i])
    ensures Unescape(Escape(s, styles)) == Text(s)
  {
    if s != "" {
      UnescapeUndoesEscape(s[1..], styles[1..]);
      ReadsOne(s[0], styles[0], Escape(s[1..], styles[1..]));
      assert [s[0]] + s[1..] == s;
    }
  }

  predicate HasControl(s: string) {
    exists c :: c in s && (c < ' ' || c == 127 as char)
  }

  datatype Url = Url(scheme: string, host: string, path: string, query: string) | BadUrl

  predicate Letter(c: char) {
    'a' <= c <= 'z' || 'A' <= c <= 'Z'
  }

  predicate DigitOrMark(c: char) {
    '0' <= c <= '9' || c == '+' || c == '-' || c == '.'
  }

  datatype SchemeScan = NoScheme | MissingScheme | Scheme(name: string, rest: string)

  /** Looking for a scheme, the first `i` characters being possible ones: a letter, then letters, digits and marks,
      up to a colon. A colon at the start is an error, any other character means there is no scheme. */
  function ScanScheme(s: string, i: nat): (r: SchemeScan)
    requires i <= |s|
    decreases |s| - i
  {
    if i == |s| then NoScheme
    else if Letter(s[i]) then ScanScheme(s, i + 1)
    else if DigitOrMark(s[i]) then if i == 0 then NoScheme else ScanScheme(s, i + 1)
    else if s[i] == ':' then if i == 0 then MissingScheme else Scheme(s[..i], s[i + 1..])
    else NoScheme
  }

  /** The authority between `//` and the next slash, and what follows it; without a scheme three slashes start a
      path. */
  function SplitAuthority(scheme: string, s: string): (string, string) {
    if "//" <= s && (scheme != "" || !("///" <= s)) then
      var authority := Cut(s[2..], '/').0;
      (authority, s[2 + |authority|..])
    else ("", s)
  }

  /** What follows the user information. */
  function HostOf(authority: string): string
    decreases |authority|
  {
    var (user, rest) := Cut(authority, '@');
    if '@' in authority then
      assert |authority| == |user| + 1 + |rest|;
      HostOf(rest)
    else authority
  }

  /** The three parts of a raw path: before `?`, between `?` and `#`, after `#`. */
  function RawPath(raw: string): string {
    Cut(Cut(raw, '#').0, '?').0
  }

  function RawQuery(raw: string): string {
    Cut(Cut(raw, '#').0, '?').1
  }

  /** Parsing any reference: fragment, scheme, query, authority, path, in this order. */
  function ParseUrl(raw: string): Url {
    var (u, fragment) := Cut(raw, '#');
    var scan := ScanScheme(u, 0);
    if HasControl(u) || scan.MissingScheme? || Unescape(fragment).Malformed? then BadUrl
    else
      var (scheme, afterScheme) := if scan.Scheme? then (scan.name, scan.rest) else ("", u);
      var (rest, query) := Cut(afterScheme, '?');
      if !("/" <= rest) && scheme != "" then Url(scheme, "", "", query)
      else if !("/" <= rest) && ':' in Cut(rest, '/').0 then BadUrl
      else
        var (authority, hierarchy) := SplitAuthority(scheme, rest);
        var path := Unescape(hierarchy);
        if path.Malformed? then BadUrl else Url(scheme, HostOf(authority), path.text, query)
  }

  lemma {:induction false} SchemeIsNamed(s: string, i: nat)
    requires i <= |s|
    ensures ScanScheme(s, i).Scheme? ==> |ScanScheme(s, i).name| >= i && ScanScheme(s, i).name != ""
    ensures i == 0 && ScanScheme(s, i).Scheme? ==> s != "" && Letter(s[0])
    decreases |s| - i
  {
    if i < |s| {
      SchemeIsNamed(s, i + 1);
    }
  }

  lemma CutKeeps(s: string, u: string, c: char)
    requires s <= u && c !in s
    ensures s <= Cut(u, c).0
  {
    var front := Cut(u, c).0;
    assert c in u ==> u[|front|] == c;
    assert forall k :: 0 <= k < |s| ==> u[k] == s[k] && s[k] in s;
  }

  lemma CutPrefix(s: string, c: char)
    ensures Cut(s, c).0 <= s
  {
  }

  /** What is cut off behind a `#` or a `?` leaves leading slashes as they are. */
  lemma SlashesStay(slashes: string, raw: string)
    requires forall c :: c in slashes ==> c == '/'
    ensures slashes <= raw <==> slashes <= RawPath(raw)
  {
    CutPrefix(raw, '#');
    CutPrefix(Cut(raw, '#').0, '?');
    if slashes <= raw {
      CutKeeps(slashes, raw, '#');
      CutKeeps(slashes, Cut(raw, '#').0, '?');
    }
  }

  /** A scheme starts with a letter, and without a scheme an authority stands behind exactly two slashes. */
  lemma PrefixesOf(raw: string)
    requires ParseUrl(raw).Url?
    ensures ParseUrl(raw).scheme != "" ==> raw != "" && Letter(raw[0])
    ensures ParseUrl(raw).scheme == "" && ParseUrl(raw).host != "" ==> "//" <= raw && !("///" <= raw)
  {
    var u := Cut(raw, '#').0;
    CutPrefix(raw, '#');
    SchemeIsNamed(u, 0);
    SlashesStay("//", raw);
    SlashesStay("///", raw);
    assert HostOf("") == "";
    hide Cut, ScanScheme, HostOf, Unescape, HasControl;
  }

  /** The two prefix checks of the validator make its checks for a scheme and a host superfluous, and leave a rooted
      path. */
  lemma GuardedUrl(raw: string)
    requires "/" <= raw && !("//" <= raw)
    ensures var parsed := ParseUrl(raw);
            parsed.Url? ==> parsed.scheme == "" && parsed.host == "" && Rooted(parsed.path)
  {
    if ParseUrl(raw).Url? {
      PrefixesOf(raw);
      assert !Letter(raw[0]);
      SlashesStay("/", raw);
      SlashesStay("//", raw);
      SchemeIsNamed(Cut(raw, '#').0, 0);
      hide Cut, ScanScheme, HostOf, HasControl;
    }
  }

  lemma {:induction false} ScanFinds(s: string, n: nat, i: nat)
    requires i <= n < |s| && s[n] == ':' && n > 0 && Letter(s[0])
    requires forall k :: 0 <= k < n ==> Letter(s[k]) || DigitOrMark(s[k])
    ensures ScanScheme(s, i) == Scheme(s[..n], s[n + 1..])
    decreases n - i
  {
    if i < n {
      ScanFinds(s, n, i + 1);
    }
  }

  /** Without the first check a scheme would be found. */
  lemma SchemeIsSeen(scheme: string, raw: string)
    requires scheme + ":" <= raw && scheme != "" && Letter(scheme[0])
    requires forall c :: c in scheme ==> Letter(c) || DigitOrMark(c)
    ensures ParseUrl(raw).Url? ==> ParseUrl(raw).scheme == scheme
  {
    var u := Cut(raw, '#').0;
    CutKeeps(scheme + ":", raw, '#');
    var n := |scheme|;
    assert u[..n] == scheme && u[n] == (scheme + ":")[n];
    assert forall k :: 0 <= k < n ==> u[k] == scheme[k] && scheme[k] in scheme;
    ScanFinds(u, n, 0);
    hide Cut, ScanScheme, HostOf, SplitAuthority, Unescape, HasControl;
  }

  lemma AuthorityIs(host: string, t: string)
    requires host != "" && '/' !in host && (t == "" || t[0] == '/')
    ensures SplitAuthority("", "//" + host + t).0 == host
  {
    var s := "//" + host + t;
    if t == "" {
      CutConcat(host, '/', "");
      assert host + "" == host;
    } else {
      CutConcat(host, '/', t[1..]);
      assert host + ['/'] + t[1..] == host + t;
    }
    hide Cut;
    assert s[2..] == host + t;
    assert s[2] == host[0] && host[0] in host;
  }

  /** What is left of the text behind a beginning without marks when fragment and query are cut off. */
  lemma BehindStart(start: string, tail: string) returns (t: string)
    requires "/" <= start && '?' !in start && '#' !in start
    requires tail == "" || tail[0] == '/' || tail[0] == '?' || tail[0] == '#'
    ensures RawPath(start + tail) == start + t && (t == "" || t[0] == '/')
  {
    var (raw, rest) := (start + tail, RawPath(start + tail));
    assert start <= raw;
    CutKeeps(start, raw, '#');
    CutKeeps(start, Cut(raw, '#').0, '?');
    CutPrefix(raw, '#');
    CutPrefix(Cut(raw, '#').0, '?');
    PlainPath(raw);
    assert start <= rest <= raw;
    hide Cut, RawPath;
    t := rest[|start|..];
    if t != "" {
      assert t[0] == rest[|start|] == raw[|start|] == tail[0];
      assert t[0] in rest;
    }
  }

  /** And without the second a host. */
  lemma HostIsSeen(host: string, tail: string)
    requires host != "" && '/' !in host && '?' !in host && '#' !in host && '@' !in host
    requires tail == "" || tail[0] == '/' || tail[0] == '?' || tail[0] == '#'
    ensures var parsed := ParseUrl("//" + host + tail); parsed.Url? ==> parsed.scheme == "" && parsed.host == host
  {
    var raw := "//" + host + tail;
    var t := BehindStart("//" + host, tail);
    AuthorityIs(host, t);
    PlainPath(raw);
    assert HostOf(host) == host;
    hide Cut, ScanScheme, SplitAuthority, HostOf, Unescape, HasControl;
  }

  /** A raw path that starts with a slash has no scheme, and its path ends before any `?` or `#`. */
  lemma PlainPath(raw: string)
    requires "/" <= raw
    ensures ScanScheme(Cut(raw, '#').0, 0).NoScheme?
    ensures '?' !in RawPath(raw) && '#' !in RawPath(raw)
  {
    var u := Cut(raw, '#').0;
    SlashesStay("/", raw);
    CutPrefix(u, '?');
    CutParts(u, '?');
    hide Cut;
    assert u[0] == RawPath(raw)[0] == '/';
  }

  function ValidateBackendPath(raw: string): Result {
    if !("/" <= raw) then Err(NoLeadingSlash)
    else if "//" <= raw then Err(ProtocolRelative)
    else
      var parsed := ParseUrl(raw);
      if parsed.BadUrl? then Err(InvalidUrl)
      else if parsed.scheme != "" then Err(AbsoluteUrl)
      else if parsed.host != "" then Err(HasHost)
      else
        GuardedUrl(raw);
        var cleanedPath := Clean(parsed.path);
        if !("/" <= cleanedPath) then Err(Traversal)
        else if parsed.query != "" then Ok(cleanedPath + "?" + parsed.query)
        else Ok(cleanedPath)
  }

  // Sizes and characters

  /** Segments counted with the slash that goes with each. */
  ghost function Weight(segs: seq<string>): nat {
    if segs == [] then 0 else |segs[0]| + 1 + Weight(segs[1..])
  }

  lemma {:induction false} WeightAppend(a: seq<string>, b: seq<string>)
    ensures Weight(a + b) == Weight(a) + Weight(b)
  {
    if a == [] {
      assert a + b == b;
    } else {
      assert (a + b)[1..] == a[1..] + b;
      WeightAppend(a[1..], b);
    }
  }

  lemma {:induction false} WeightSplit(s: string)
    ensures Weight(Split(s)) == |s| + 1
  {
    if s != "" {
      WeightSplit(s[1..]);
      assert Split(s)[1..] == if s[0] == '/' then Split(s[1..]) else Split(s[1..])[1..];
    }
  }

  lemma {:induction false} WeightJoin(segs: seq<string>)
    requires segs != []
    ensures Weight(segs) == |Join(segs)| + 1
  {
    if |segs| > 1 {
      WeightJoin(segs[1..]);
    } else {
      assert segs[1..] == [];
    }
  }

  lemma PushWeight(stack: seq<string>, s: string)
    ensures Weight(Push(stack, s)) <= Weight(stack) + |s| + 1
  {
    if s == ".." && stack != [] {
      assert stack == stack[..|stack| - 1] + [stack[|stack| - 1]];
      WeightAppend(stack[..|stack| - 1], [stack[|stack| - 1]]);
    } else {
      WeightAppend(stack, [s]);
      assert Weight([s]) == |s| + 1;
    }
  }

  lemma {:induction false} ResolveWeight(stack: seq<string>, segs: seq<string>)
    ensures Weight(Resolve(stack, segs)) <= Weight(stack) + Weight(segs)
    decreases |segs|
  {
    if segs != [] {
      PushWeight(stack, segs[0]);
      ResolveWeight(Push(stack, segs[0]), segs[1..]);
    }
  }

  /** Cleaning never lengthens a path. */
  lemma CleanShrinks(p: string)
    requires Rooted(p)
    ensures |Clean(p)| <= |p|
  {
    var names := Resolve([], Split(p));
    WeightSplit(p[1..]);
    assert Split(p) == [""] + Split(p[1..]);
    assert Split(p)[1..] == Split(p[1..]);
    ResolveWeight([], Split(p[1..]));
    assert names == Resolve([], Split(p[1..]));
    if names != [] {
      WeightJoin(names);
    }
  }

  lemma {:induction false} JoinChars(segs: seq<string>, c: char)
    requires c in Join(segs)
    ensures c == '/' || exists x :: x in segs && c in x
  {
    if |segs| == 1 {
      assert segs[0] in segs;
    } else {
      assert segs[0] in segs;
      if c !in segs[0] && c != '/' {
        JoinChars(segs[1..], c);
      }
    }
  }

  lemma {:induction false} SplitChars(s: string, c: char)
    requires exists x :: x in Split(s) && c in x
    ensures c in s
  {
    if s != "" {
      assert s == [s[0]] + s[1..];
      if c != s[0] {
        var x :| x in Split(s) && c in x;
        var rest := Split(s[1..]);
        assert s[0] == '/' ==> x == "" || x in rest;
        assert s[0] != '/' ==> x == [s[0]] + rest[0] || x in rest[1..];
        assert rest[0] in rest;
        assert exists y :: y in rest && c in y;
        SplitChars(s[1..], c);
      }
    }
  }

  /** Cleaning invents no character. */
  lemma CleanChars(p: string, c: char)
    requires Rooted(p) && c in Clean(p)
    ensures c in p
  {
    if c != '/' {
      var names := Resolve([], Split(p));
      JoinChars(names, c);
      ResolveIsReal([], Split(p));
      SplitChars(p, c);
    }
  }

  // ---------------------------------------------------------------------------------------------
  // What the validator guarantees
  // ---------------------------------------------------------------------------------------------

  /** The accepted path put together. */
  function Assemble(cleaned: string, query: string): string {
    if query == "" then cleaned else cleaned + "?" + query
  }

  predicate Accepted(raw: string) {
    && "/" <= raw && !("//" <= raw)
    && !HasControl(Cut(raw, '#').0)
    && Unescape(RawPath(raw)).Text? && Unescape(Cut(raw, '#').1).Text?
  }

  /** The decoded path is cleaned. */
  function CleanedPath(raw: string): string
    requires Accepted(raw)
  {
    Clean(DecodedPath(raw))
  }

  function DecodedPath(raw: string): (p: string)
    requires Accepted(raw)
    ensures Rooted(p)
  {
    RootedParts(raw);
    Unescape(RawPath(raw)).text
  }

  lemma RootedParts(raw: string)
    requires "/" <= raw
    ensures Rooted(RawPath(raw))
  {
    assert raw[0] == '/';
  }

  /** Behind the prefix checks parsing fails exactly on control characters and malformed escapes. */
  lemma GuardedParts(raw: string)
    requires "/" <= raw && !("//" <= raw)
    ensures ParseUrl(raw) == if Accepted(raw) then Url("", "", DecodedPath(raw), RawQuery(raw)) else BadUrl
  {
    PlainPath(raw);
    SlashesStay("/", raw);
    SlashesStay("//", raw);
    assert HostOf("") == "";
    hide Cut, ScanScheme, Unescape, HasControl;
  }

  /** Exactly the paths with one leading slash, no control character and only well-formed escapes are
      accepted; the result is the cleaned, decoded path followed by the raw query, kept verbatim. */
  lemma ValidatorOutcome(raw: string)
    ensures ValidateBackendPath(raw) ==
            if !("/" <= raw) then Err(NoLeadingSlash)
            else if "//" <= raw then Err(ProtocolRelative)
            else if !Accepted(raw) then Err(InvalidUrl)
            else Ok(Assemble(CleanedPath(raw), RawQuery(raw)))
  {
    if "/" <= raw && !("//" <= raw) {
      GuardedParts(raw);
      hide ParseUrl, Accepted, RawQuery, DecodedPath, Split, Resolve, Join;
    }
  }

  /** A control character before the fragment is refused. */
  lemma ControlRefused(raw: string, k: nat)
    requires "/" <= raw && !("//" <= raw)
    requires k < |Cut(raw, '#').0| && (raw[k] as int < 0x20 || raw[k] as int == 0x7F)
    ensures ValidateBackendPath(raw) == Err(InvalidUrl)
  {
    var u := Cut(raw, '#').0;
    CutPrefix(raw, '#');
    hide ValidateBackendPath, Cut, RawPath, Unescape;
    ValidatorOutcome(raw);
    assert u[k] in u;
  }

  /** So is a percent sign in the path without two hexadecimal digits behind it. */
  lemma BadEscapeRefused(raw: string, k: nat)
    requires "/" <= raw && !("//" <= raw)
    requires k < |RawPath(raw)| && RawPath(raw)[k] == '%' && '%' !in RawPath(raw)[..k]
    requires var path := RawPath(raw); k + 2 >= |path| || HexValue(path[k + 1]) < 0 || HexValue(path[k + 2]) < 0
    ensures ValidateBackendPath(raw) == Err(InvalidUrl)
  {
    hide ValidateBackendPath, Cut, RawPath, Unescape, HasControl;
    ValidatorOutcome(raw);
    BadEscape(RawPath(raw), k);
  }

  lemma {:induction false} BadEscape(s: string, k: nat)
    requires k < |s| && s[k] == '%' && '%' !in s[..k]
    requires k + 2 >= |s| || HexValue(s[k + 1]) < 0 || HexValue(s[k + 2]) < 0
    ensures Unescape(s).Malformed?
    decreases k
  {
    if k > 0 {
      assert s[0] in s[..k] && s[..k][1..] == s[1..][..k - 1];
      BadEscape(s[1..], k - 1);
    }
  }

  /** An accepted path starts with a clean path, and with one slash only. */
  lemma AcceptedIsNormal(raw: string)
    requires Accepted(raw)
    ensures Clean(CleanedPath(raw)) == CleanedPath(raw)
    ensures !("//" <= Assemble(CleanedPath(raw), RawQuery(raw)))
  {
    CleanIsNormal(DecodedPath(raw));
    var out := Assemble(CleanedPath(raw), RawQuery(raw));
    if |out| >= 2 {
      if |CleanedPath(raw)| == 1 {
        assert out[1] == '?';
      } else {
        assert out[1] == CleanedPath(raw)[1];
      }
    }
  }

  lemma {:induction false} CutConcat(s: string, c: char, t: string)
    ensures c in s ==> Cut(s + t, c) == (Cut(s, c).0, Cut(s, c).1 + t)
    ensures c !in s ==> Cut(s + [c] + t, c) == (s, t)
    ensures c !in s && c !in t ==> Cut(s + t, c) == (s + t, "")
  {
    if s != "" {
      assert (s + t)[1..] == s[1..] + t;
      assert (s + [c] + t)[1..] == s[1..] + [c] + t;
      assert s == [s[0]] + s[1..];
      CutConcat(s[1..], c, t);
    } else {
      assert s + t == t;
      assert ([c] + t)[1..] == t;
    }
  }

  /** What follows the last slash. */
  function LastPiece(p: string): string {
    Split(p)[|Split(p)| - 1]
  }

  /** What a second validation would not change, said of the cleaned path: nothing in it starts a fragment or
      an escape or is a control character; and if it holds a question mark, what stands before the first one is the
      root or ends in a real name, and something follows. */
  ghost predicate Stable(cleaned: string, query: string) {
    var (front, back) := Cut(cleaned, '?');
    && '#' !in cleaned && !HasControl(cleaned) && '%' !in front
    && ('?' in cleaned ==> (front == "/" || RealName(LastPiece(front))) && (back != "" || query != ""))
  }

  lemma Prepend(c: char, a: string, b: string)
    ensures [c] + a + b == [c] + (a + b)
  {
  }

  lemma JoinExtend(c: char, segs: seq<string>)
    requires segs != []
    ensures Join([[c] + segs[0]] + segs[1..]) == [c] + Join(segs)
  {
    var longer := [[c] + segs[0]] + segs[1..];
    assert longer[1..] == segs[1..];
    if |segs| > 1 {
      assert Join(longer) == [c] + segs[0] + "/" + Join(segs[1..]);
      assert Join(segs) == segs[0] + "/" + Join(segs[1..]);
      hide Join;
      Prepend(c, segs[0], "/");
      Prepend(c, segs[0] + "/", Join(segs[1..]));
    }
  }

  lemma {:induction false} JoinSplit(s: string)
    ensures Join(Split(s)) == s
  {
    if s != "" {
      var rest := Split(s[1..]);
      JoinSplit(s[1..]);
      assert s == [s[0]] + s[1..];
      if s[0] == '/' {
        assert ([""] + rest)[1..] == rest;
        assert Join([""] + rest) == "" + "/" + Join(rest);
      } else {
        JoinExtend(s[0], rest);
        hide Join;
      }
    }
  }

  /** All pieces of a prefix but its last are pieces of the whole. */
  lemma {:induction false} SplitPrefix(a: string, b: string)
    ensures |Split(a)| <= |Split(a + b)|
    ensures forall k :: 0 <= k < |Split(a)| - 1 ==> Split(a)[k] == Split(a + b)[k]
  {
    if a != "" {
      var (x, y) := (Split(a[1..]), Split(a[1..] + b));
      assert (a + b)[1..] == a[1..] + b;
      SplitPrefix(a[1..], b);
      assert Split(a) == if a[0] == '/' then [""] + x else [[a[0]] + x[0]] + x[1..];
      assert Split(a + b) == if a[0] == '/' then [""] + y else [[a[0]] + y[0]] + y[1..];
      hide Split;
    }
  }

  /** A clean path is the root or ends in a real name. */
  lemma CleanEndsReal(p: string)
    requires Rooted(p) && Clean(p) == p
    ensures p == "/" || RealName(LastPiece(p))
  {
    var names := Resolve([], Split(p));
    CleanSegments(p);
    hide Clean, Resolve, Split, RealName;
    if names != [] {
      assert LastPiece(p) == names[|names| - 1];
      assert LastPiece(p) in names;
    }
  }

  lemma RealPiecesAreClean(p: string)
    requires Rooted(p) && AllReal(Split(p)[1..]) && |Split(p)| >= 2
    ensures Clean(p) == p
  {
    var (segs, names) := (Split(p), Split(p)[1..]);
    assert segs == [""] + names;
    ResolvedStays(names);
    JoinSplit(p);
    assert Join(segs) == "" + "/" + Join(names);
  }

  lemma RootIsClean()
    ensures Clean("/") == "/"
  {
    SplitAtSlash("", "");
    assert "" + "/" + "" == "/" && [""] + [""] == ["", ""];
    ResolvedStays([]);
  }

  /** A path whose inner pieces are real names is clean if and only if it is the root or ends in a real name. */
  lemma CleanIff(p: string)
    requires Rooted(p)
    requires forall k :: 1 <= k < |Split(p)| - 1 ==> RealName(Split(p)[k])
    ensures Clean(p) == p <==> p == "/" || RealName(LastPiece(p))
  {
    assert |Split(p)| >= 2 by { assert Split(p[1..]) != []; }
    hide Clean, RealName, Split;
    if Clean(p) == p {
      CleanEndsReal(p);
    }
    if p == "/" {
      RootIsClean();
    } else if RealName(LastPiece(p)) {
      RealPiecesAreClean(p);
    }
  }

  /** So is what stands before the first question mark of a clean path. */
  lemma FrontCleanIff(cleaned: string)
    requires Rooted(cleaned) && Clean(cleaned) == cleaned
    ensures var front := Cut(cleaned, '?').0;
            && Rooted(front)
            && (Clean(front) == front <==> front == "/" || RealName(LastPiece(front)))
  {
    var front := Cut(cleaned, '?').0;
    CutPrefix(cleaned, '?');
    var back := cleaned[|front|..];
    assert cleaned == front + back;
    SplitPrefix(front, back);
    CleanSegments(cleaned);
    forall k | 1 <= k < |Split(front)| - 1
      ensures RealName(Split(front)[k])
    {
      assert Split(front)[k] == Split(cleaned)[k];
    }
    CleanIff(front);
  }

  /** Query and fragment-free part of an accepted path hold no `#` and no control character. */
  lemma QueryIsPlain(raw: string)
    requires Accepted(raw)
    ensures '#' !in RawQuery(raw) && !HasControl(RawQuery(raw))
    ensures '#' !in RawPath(raw) && '?' !in RawPath(raw) && !HasControl(RawPath(raw))
  {
    var u := Cut(raw, '#').0;
    CutParts(u, '?');
  }

  lemma CutParts(s: string, c: char)
    ensures forall x :: x in Cut(s, c).0 || x in Cut(s, c).1 ==> x in s
    ensures |Cut(s, c).0| + |Cut(s, c).1| + (if c in s then 1 else 0) == |s|
  {
    var (a, b) := Cut(s, c);
    if c in s {
      assert s == a + [c] + b;
    }
  }

  /** Where the assembled path splits again. */
  lemma AssembledParts(cleaned: string, query: string)
    requires '#' !in cleaned && '#' !in query
    ensures var out := Assemble(cleaned, query);
            var (front, back) := Cut(cleaned, '?');
            && Cut(out, '#') == (out, "")
            && RawPath(out) == front
            && RawQuery(out) == if '?' in cleaned then back + (if query == "" then "" else "?" + query) else query
  {
    var out := Assemble(cleaned, query);
    var tail := if query == "" then "" else "?" + query;
    assert out == cleaned + tail;
    assert '#' !in out;
    CutConcat(cleaned, '?', tail);
    CutConcat(cleaned, '?', query);
    if query != "" {
      assert cleaned + ['?'] + query == out;
    } else {
      assert out == cleaned;
    }
  }

  /** What the second validation would produce has at most the length of what it reads. */
  lemma RevalidatedLength(raw: string)
    requires Accepted(raw)
    ensures |Assemble(CleanedPath(raw), RawQuery(raw))| <= |Cut(raw, '#').0|
    ensures '%' in RawPath(raw) ==> |Assemble(CleanedPath(raw), RawQuery(raw))| < |raw|
    ensures '#' in raw ==> |Assemble(CleanedPath(raw), RawQuery(raw))| < |raw|
    ensures '?' in Cut(raw, '#').0 && RawQuery(raw) == "" ==> |Assemble(CleanedPath(raw), RawQuery(raw))| < |raw|
  {
    CutParts(raw, '#');
    CutParts(Cut(raw, '#').0, '?');
    CleanShrinks(DecodedPath(raw));
  }

  lemma ControlIn(a: string, b: string)
    ensures HasControl(a + b) <==> HasControl(a) || HasControl(b)
  {
    if HasControl(a) {
      var c :| c in a && (c < ' ' || c == 127 as char);
      assert c in a + b;
    }
    if HasControl(b) {
      var c :| c in b && (c < ' ' || c == 127 as char);
      assert c in a + b;
    }
  }

  /** The query of the second round. */
  function SecondQuery(cleaned: string, query: string): string {
    if '?' in cleaned then Cut(cleaned, '?').1 + (if query == "" then "" else "?" + query) else query
  }

  lemma ControlInAssembled(cleaned: string, query: string)
    requires !HasControl(query)
    ensures HasControl(Assemble(cleaned, query)) <==> HasControl(cleaned)
  {
    if query != "" {
      assert Assemble(cleaned, query) == cleaned + ("?" + query);
      ControlIn(cleaned, "?" + query);
      ControlIn("?", query);
    }
  }

  lemma SecondAccepted(cleaned: string, query: string)
    requires Rooted(cleaned) && '#' !in cleaned && '#' !in query && !HasControl(query)
    requires !("//" <= Assemble(cleaned, query))
    ensures var (out, front) := (Assemble(cleaned, query), Cut(cleaned, '?').0);
            && "/" <= out && Rooted(front)
            && (Accepted(out) <==> !HasControl(cleaned) && Unescape(front).Text?)
  {
    hide Cut, HasControl;
    var out := Assemble(cleaned, query);
    AssembledParts(cleaned, query);
    ControlInAssembled(cleaned, query);
    assert "/" <= out by { assert out[0] == cleaned[0]; }
    RootedParts(out);
    assert Unescape("") == Text("");
  }

  /** The second round, in terms of what the first one cleaned. */
  lemma SecondRound(cleaned: string, query: string)
    requires Rooted(cleaned) && '#' !in cleaned && '#' !in query && !HasControl(query)
    requires !("//" <= Assemble(cleaned, query))
    ensures var (out, front) := (Assemble(cleaned, query), Cut(cleaned, '?').0);
            && Rooted(front)
            && (Accepted(out) <==> !HasControl(cleaned) && Unescape(front).Text?)
            && ValidateBackendPath(out) ==
               if Accepted(out) then Ok(Assemble(Clean(Unescape(front).text), SecondQuery(cleaned, query)))
               else Err(InvalidUrl)
  {
    hide Cut, HasControl, Clean, ValidateBackendPath;
    var out := Assemble(cleaned, query);
    SecondAccepted(cleaned, query);
    AssembledParts(cleaned, query);
    ValidatorOutcome(out);
  }

  lemma Regroup(front: string, back: string, tail: string)
    ensures front + "?" + (back + tail) == (front + "?" + back) + tail
  {
  }

  lemma AssembleAppends(cleaned: string, query: string)
    ensures Assemble(cleaned, query) == cleaned + (if query == "" then "" else "?" + query)
  {
  }

  lemma AssembleFront(cleaned: string, query: string)
    requires '?' in cleaned ==> Cut(cleaned, '?').1 != "" || query != ""
    ensures Assemble(Cut(cleaned, '?').0, SecondQuery(cleaned, query)) == Assemble(cleaned, query)
  {
    var (front, back) := Cut(cleaned, '?');
    hide Cut;
    if '?' in cleaned {
      var tail := if query == "" then "" else "?" + query;
      assert SecondQuery(cleaned, query) == back + tail != "";
      assert cleaned == front + "?" + back;
      AssembleAppends(cleaned, query);
      hide SecondQuery;
      Regroup(front, back, tail);
    }
  }

  lemma StableIsIdempotent(raw: string)
    requires Accepted(raw) && Stable(CleanedPath(raw), RawQuery(raw))
    ensures var out := Assemble(CleanedPath(raw), RawQuery(raw)); ValidateBackendPath(out) == Ok(out)
  {
    var (cleaned, query) := (CleanedPath(raw), RawQuery(raw));
    AcceptedIsNormal(raw);
    QueryIsPlain(raw);
    FrontCleanIff(cleaned);
    hide Clean, ValidateBackendPath, Accepted, RealName, LastPiece;
    SecondRound(cleaned, query);
    AssembleFront(cleaned, query);
  }

  /** Two assemblies of rooted fronts without a question mark agree only if the parts do. */
  lemma AssembleInjective(front: string, other: string, query: string)
    requires '?' !in front && Assemble(front, query) == Assemble(other, query)
    ensures front == other
  {
    if query != "" {
      assert |front| == |other|;
      assert front == Assemble(front, query)[..|front|];
      assert other == Assemble(other, query)[..|other|];
    }
  }

  lemma IdempotentIsStable(raw: string)
    requires Accepted(raw)
    requires var out := Assemble(CleanedPath(raw), RawQuery(raw)); ValidateBackendPath(out) == Ok(out)
    ensures Stable(CleanedPath(raw), RawQuery(raw))
  {
    var (cleaned, query) := (CleanedPath(raw), RawQuery(raw));
    var out := Assemble(cleaned, query);
    var front := Cut(cleaned, '?').0;
    AcceptedIsNormal(raw);
    QueryIsPlain(raw);
    SecondKeepsLength(out);
    FrontCleanIff(cleaned);
    assert '#' !in out;
    hide Clean, ValidateBackendPath, Accepted, RealName, LastPiece;
    CharsOfAssemble(cleaned, query);
    SecondRound(cleaned, query);
    AssembledParts(cleaned, query);
    AssembleFront(cleaned, query);
    AssembleInjective(front, Clean(front), SecondQuery(cleaned, query));
  }

  lemma CharsOfAssemble(cleaned: string, query: string)
    ensures forall c :: c in cleaned ==> c in Assemble(cleaned, query)
    ensures '?' in cleaned ==> '?' in Assemble(cleaned, query)
  {
  }

  /** A path that validates to itself loses nothing on the way: no fragment, no escape, no empty query. */
  lemma SecondKeepsLength(out: string)
    requires ValidateBackendPath(out) == Ok(out)
    ensures '#' !in out && '%' !in RawPath(out)
    ensures '?' in out ==> RawQuery(out) != ""
  {
    ValidatorOutcome(out);
    RevalidatedLength(out);
  }

  /** Validating twice changes nothing if and only if the cleaned path is stable. */
  lemma IdempotentIff(raw: string)
    requires Accepted(raw)
    ensures var out := Assemble(CleanedPath(raw), RawQuery(raw));
            ValidateBackendPath(out) == Ok(out) <==> Stable(CleanedPath(raw), RawQuery(raw))
  {
    var out := Assemble(CleanedPath(raw), RawQuery(raw));
    if ValidateBackendPath(out) == Ok(out) {
      IdempotentIsStable(raw);
    }
    if Stable(CleanedPath(raw), RawQuery(raw)) {
      StableIsIdempotent(raw);
    }
  }

  /** In particular whenever the raw path has no escape before its query. */
  lemma PlainPathsAreStable(raw: string)
    requires Accepted(raw) && '%' !in RawPath(raw)
    ensures Stable(CleanedPath(raw), RawQuery(raw))
    ensures var out := Assemble(CleanedPath(raw), RawQuery(raw)); ValidateBackendPath(out) == Ok(out)
  {
    QueryIsPlain(raw);
    var cleaned := CleanedPath(raw);
    forall c | c in cleaned
      ensures c in RawPath(raw)
    {
      CleanChars(DecodedPath(raw), c);
    }
    AcceptedIsNormal(raw);
    assert '?' !in cleaned && '%' !in cleaned && '#' !in cleaned;
    StableIsIdempotent(raw);
  }

  /** A clean path and a query that need no escape come back as they are, without the fragment behind them. */
  lemma CleanPathPasses(p: string, query: string, tail: string)
    requires Rooted(p) && Clean(p) == p && '?' !in p && '%' !in p
    requires '#' !in p + query && !HasControl(p + query)
    requires tail == "" || (tail[0] == '#' && '%' !in tail)
    ensures var u := p + if query == "" then "" else "?" + query;
            ValidateBackendPath(u + tail) == Ok(u)
  {
    var u := p + if query == "" then "" else "?" + query;
    var raw := u + tail;
    CleanIsNormal(p);
    SplitTail(u, tail);
    SplitQuery(p, query);
    ControlIn(p, query);
    ControlInAssembled(p, query);
    AssembleAppends(p, query);
    assert u[0] == '/' && raw[0] == '/';
    assert !("//" <= raw) by {
      if |p| > 1 {
        assert raw[1] == p[1] && p[0] == '/';
      } else if |raw| > 1 {
        assert raw[1] == '?' || raw[1] == '#';
      }
    }
    hide Clean, Cut, HasControl, Unescape, ValidateBackendPath, Split, Resolve, Join;
    ValidatorOutcome(raw);
  }

  lemma SplitTail(u: string, tail: string)
    requires '#' !in u && (tail == "" || (tail[0] == '#' && '%' !in tail))
    ensures Cut(u + tail, '#').0 == u
    ensures Unescape(Cut(u + tail, '#').1) == Text(Cut(u + tail, '#').1)
  {
    hide Cut;
    if tail == "" {
      assert u + tail == u;
      assert Unescape("") == Text("");
    } else {
      CutConcat(u, '#', tail[1..]);
      assert tail == ['#'] + tail[1..];
      assert u + ['#'] + tail[1..] == u + tail;
      assert '%' !in tail[1..];
      hide Unescape;
    }
  }

  lemma SplitQuery(p: string, query: string)
    requires '?' !in p && '%' !in p
    ensures var u := p + if query == "" then "" else "?" + query;
            Cut(u, '?') == (p, query) && Unescape(p) == Text(p)
  {
    hide Cut, Unescape;
    if query == "" {
      assert p + "" == p;
    } else {
      CutConcat(p, '?', query);
      Associates(p, ['?'], query);
      assert "?" == ['?'];
    }
  }

  lemma Associates(a: string, b: string, c: string)
    ensures a + (b + c) == a + b + c
  {
  }

  /** With an escape it can fail: an escaped percent sign is accepted once and rejected the second time. */
  lemma EscapesAreNotStable()
    ensures ValidateBackendPath("/%25") == Ok("/%")
    ensures ValidateBackendPath("/%") == Err(InvalidUrl)
  {
    hide ValidateBackendPath;
    assert "/%25"[1] == '%' && "//"[1] == '/';
    OnlyAPath("/%25");
    OnlyAPath("/%");
    PercentSegment();
    assert Unescape("/%25") == Text("/%") by { assert Unescape("%25") == Text("%"); }
    assert Unescape("/%").Malformed? by { assert Unescape("%").Malformed?; }
  }

  lemma PercentSegment()
    ensures Clean("/%") == "/%"
  {
    SplitOfName("%");
    SplitAtSlash("", "%");
    assert "" + "/" + "%" == "/%";
    assert [""] + ["%"] == ["", "%"];
    ResolvedStays(["%"]);
  }

  lemma OnlyAPath(raw: string)
    requires Rooted(raw) && !("//" <= raw) && '#' !in raw && '?' !in raw && !HasControl(raw)
    ensures ValidateBackendPath(raw) == if Unescape(raw).Text? then Ok(Clean(Unescape(raw).text)) else Err(InvalidUrl)
  {
    assert Unescape("") == Text("");
    ValidatorOutcome(raw);
  }
}
