/** For every configured base and every key: exactly when the URL built for the key decodes to it. */
module AvatarRoundTrip {
  import opened Prelude
  import opened AvatarUrl

  // ---------------------------------------------------------------- the parts of a base

  predicate AllSlashes(s: string) { forall k :: 0 <= k < |s| ==> s[k] == '/' }

  predicate AllWhitespace(s: string) { forall k :: 0 <= k < |s| ==> IsWhitespace(s[k]) }

  function EndSlashes(base: string): string { Core(base)[|ReadBase(base)|..] }

  lemma PrefixAndRest(s: string, prefix: string)
    requires prefix <= s
    ensures s == prefix + s[|prefix|..]
  {
  }

  lemma BaseIsItsParts(base: string)
    ensures base == Lead(base) + Core(base) + Trail(base)
  {
    var d := DropWhileEnd(base, IsWhitespace);
    DropWhileEndIsPrefix(base, IsWhitespace);
    PrefixAndRest(base, d);
    DropWhileIsSuffix(d, IsWhitespace);
    StartAndSuffix(d, Core(base));
  }

  lemma StartAndSuffix(s: string, suffix: string)
    requires |suffix| <= |s| && s[|s| - |suffix|..] == suffix
    ensures s == s[..|s| - |suffix|] + suffix
  {
  }

  lemma RestSatisfies(s: string, n: nat, p: CharTest)
    requires n <= |s| && forall k :: n <= k < |s| ==> p(s[k])
    ensures forall k :: 0 <= k < |s[n..]| ==> p(s[n..][k])
  {
  }

  lemma StartSatisfies(s: string, n: nat, p: CharTest)
    requires n <= |s| && forall k :: 0 <= k < n ==> p(s[k])
    ensures forall k :: 0 <= k < |s[..n]| ==> p(s[..n][k])
  {
  }

  lemma TrailIsWhitespace(base: string)
    ensures AllWhitespace(Trail(base))
  {
    DropWhileEndIsPrefix(base, IsWhitespace);
    RestSatisfies(base, |DropWhileEnd(base, IsWhitespace)|, IsWhitespace);
  }

  lemma LeadIsWhitespace(base: string)
    ensures AllWhitespace(Lead(base))
  {
    var d := DropWhileEnd(base, IsWhitespace);
    DropWhileEndIsPrefix(base, IsWhitespace);
    DropWhileStops(d, IsWhitespace);
    assert Lead(base) == d[..|d| - |Core(base)|];
    StartSatisfies(d, |d| - |Core(base)|, IsWhitespace);
  }

  lemma CoreParts(base: string)
    ensures Core(base) == ReadBase(base) + EndSlashes(base) && AllSlashes(EndSlashes(base))
  {
    OwnSlashes(Core(base));
  }

  /** A string, trimmed of slashes, and the slashes. */
  lemma OwnSlashes(path: string)
    ensures var trimmed := DropWhileEnd(path, IsSlash); var own := path[|trimmed|..];
            && path == trimmed + own && AllSlashes(own)
            && (own != "" <==> path != "" && path[|path| - 1] == '/')
  {
    var trimmed := DropWhileEnd(path, IsSlash);
    DropWhileEndIsPrefix(path, IsSlash);
    PrefixAndRest(path, trimmed);
    RestSatisfies(path, |trimmed|, IsSlash);
  }

  lemma {:induction false} DropWhileEndConcat(s: string, t: string, p: CharTest)
    requires DropWhileEnd(t, p) != ""
    ensures DropWhileEnd(s + t, p) == s + DropWhileEnd(t, p)
  {
    if p(t[|t| - 1]) {
      assert (s + t)[..|s + t| - 1] == s + t[..|t| - 1];
      DropWhileEndConcat(s, t[..|t| - 1], p);
    }
  }

  /** What stands in a built URL between the trimmed base and the slash before the key. */
  function Gap(base: string): string { if Trail(base) == "" then "" else EndSlashes(base) + Trail(base) }

  lemma Regrouped(a: string, b: string, c: string, d: string)
    ensures (a + b + c) + d == a + (b + (c + d))
    ensures a + (b + c) + d == (a + b) + (c + d)
  {
  }

  lemma TrimmedBase(base: string)
    requires ReadBase(base) != ""
    ensures DropWhileEnd(base, IsSlash) == Lead(base) + ReadBase(base) + Gap(base)
  {
    BaseIsItsParts(base);
    var l, c, t := Lead(base), Core(base), Trail(base);
    if t == "" {
      assert base == l + c;
      DropWhileEndConcat(l, c, IsSlash);
    } else {
      CoreParts(base);
      TrailKept(base);
      Regrouped(l, ReadBase(base), EndSlashes(base), t);
      assert l + ReadBase(base) + Gap(base) == l + (ReadBase(base) + EndSlashes(base)) + t;
    }
  }

  lemma TrailKept(base: string)
    requires Trail(base) != ""
    ensures DropWhileEnd(base, IsSlash) == base
  {
    var t := Trail(base);
    TrailIsWhitespace(base);
    assert base[|base| - 1] == t[|t| - 1] && IsWhitespace(t[|t| - 1]);
  }

  lemma BuiltUrl(base: string, key: string)
    requires ReadBase(base) != ""
    ensures UrlFor(base, key) == Lead(base) + (ReadBase(base) + (Gap(base) + ("/" + key)))
  {
    TrimmedBase(base);
    Regrouped(Lead(base), ReadBase(base), Gap(base), "/" + key);
    assert UrlFor(base, key) == DropWhileEnd(base, IsSlash) + ("/" + key);
  }

  // ---------------------------------------------------------------- cleaning the built URL

  lemma {:induction false} DropWhileAll(s: string, t: string, p: CharTest)
    requires forall k :: 0 <= k < |s| ==> p(s[k])
    ensures DropWhile(s + t, p) == DropWhile(t, p)
  {
    if s == "" {
      assert s + t == t;
    } else {
      assert (s + t)[1..] == s[1..] + t;
      DropWhileAll(s[1..], t, p);
    }
  }

  lemma {:induction false} WithoutAll(s: string, p: CharTest)
    ensures Without(s, p) == "" <==> forall k :: 0 <= k < |s| ==> p(s[k])
  {
    if s != "" {
      WithoutAll(s[1..], p);
      assert (forall k :: 0 <= k < |s| ==> p(s[k])) ==> forall k :: 0 <= k < |s[1..]| ==> p(s[1..][k]);
      if p(s[0]) && Without(s, p) == "" {
        forall k | 0 <= k < |s| ensures p(s[k]) {
          assert k > 0 ==> s[k] == s[1..][k - 1];
        }
      }
    }
  }

  lemma CleanConcat(b: string, t: string)
    requires Clean(b) != ""
    ensures Clean(b + t) == Clean(b) + Without(t, IsTabOrNewline)
  {
    assert DropWhile(b, IsControlOrSpace) == "" ==> Clean(b) == "";
    DropWhileConcat(b, t, IsControlOrSpace);
    WithoutConcat(DropWhile(b, IsControlOrSpace), t, IsTabOrNewline);
  }

  lemma CleanAfterLead(lead: string, t: string)
    requires HarmlessLead(lead)
    ensures Clean(lead + t) == Clean(t)
  {
    DropWhileAll(lead, t, IsControlOrSpace);
  }

  /** The outer whitespace that survives cleaning. */
  function Residue(base: string): string { Without(Trail(base), IsTabOrNewline) }

  function CleanGap(base: string): string { if Trail(base) == "" then "" else EndSlashes(base) + Residue(base) }

  lemma ResidueBlank(base: string)
    ensures Residue(base) == "" <==> HarmlessTrail(Trail(base))
  {
    WithoutAll(Trail(base), IsTabOrNewline);
  }

  lemma SlashesHaveNoBreaks(s: string)
    requires AllSlashes(s)
    ensures Without(s, IsTabOrNewline) == s
  {
    WithoutKeepsNone(s, IsTabOrNewline);
  }

  lemma CleanGapIs(base: string)
    ensures Without(Gap(base), IsTabOrNewline) == CleanGap(base)
  {
    if Trail(base) != "" {
      CoreParts(base);
      SlashesHaveNoBreaks(EndSlashes(base));
      WithoutConcat(EndSlashes(base), Trail(base), IsTabOrNewline);
    }
  }

  lemma CleanTail(base: string, key: string)
    requires NoBreaks(key)
    ensures Without(Gap(base) + ("/" + key), IsTabOrNewline) == CleanGap(base) + ("/" + key)
  {
    CleanGapIs(base);
    WithoutConcat(Gap(base), "/" + key, IsTabOrNewline);
    WithoutKeepsNone("/" + key, IsTabOrNewline);
  }

  lemma CleanBuilt(base: string, key: string)
    requires Clean(ReadBase(base)) != "" && HarmlessLead(Lead(base)) && NoBreaks(key)
    ensures Clean(UrlFor(base, key)) == Clean(ReadBase(base)) + (CleanGap(base) + ("/" + key))
  {
    var b, t := ReadBase(base), Gap(base) + ("/" + key);
    assert b == "" ==> Clean(b) == "";
    BuiltUrl(base, key);
    CleanAfterLead(Lead(base), b + t);
    CleanConcat(b, t);
    CleanTail(base, key);
  }

  // ---------------------------------------------------------------- splitting what was appended

  lemma SchemeOfAppended(u: string, t: string)
    requires HasScheme(u)
    ensures HasScheme(u + t) && Scheme(u + t) == Scheme(u)
    ensures AfterScheme(u + t) == AfterScheme(u) + t
  {
    var i := FirstIndex(u, IsColon);
    FirstIndexFacts(u, IsColon);
    FirstIndexIs(u + t, IsColon, i);
    assert (u + t)[i + 1..] == u[i + 1..] + t;
    assert (u + t)[..i] == u[..i];
  }

  lemma AuthorityOfAppended(rest: string, t: string)
    requires HasAuthority(rest) && (AfterAuthority(rest) != "" || (t != "" && t[0] == '/'))
    ensures HasAuthority(rest + t) && AfterAuthority(rest + t) == AfterAuthority(rest) + t
    ensures Authority(rest + t) == Authority(rest)
  {
    var a, j := rest[2..], FirstIndex(rest[2..], EndsAuthority);
    SlashesKept(rest, t);
    FirstIndexKept(a, t, EndsAuthority);
    assert (a + t)[j..] == a[j..] + t && (a + t)[..j] == a[..j];
  }

  lemma SlashesKept(rest: string, t: string)
    requires |rest| >= 2
    ensures (rest + t)[..2] == rest[..2] && (rest + t)[2..] == rest[2..] + t
  {
  }

  lemma FirstIndexKept(a: string, t: string, p: CharTest)
    requires FirstIndex(a, p) < |a| || (t != "" && p(t[0]))
    ensures FirstIndex(a + t, p) == FirstIndex(a, p)
  {
    FirstIndexFacts(a, p);
    var i := FirstIndex(a, p);
    assert i < |a + t| ==> p((a + t)[i]);
    FirstIndexIs(a + t, p, i);
  }

  lemma PathWithoutMarks(tail: string)
    requires NoMarks(tail)
    ensures Path(tail) == tail && Query(tail) == "" && Fragment(tail) == ""
  {
    FirstIndexIs(tail, IsHash, |tail|);
    assert UntilHash(tail) == tail;
    FirstIndexIs(tail, IsQuestion, |tail|);
  }

  /** What is appended where the authority has ended only lengthens the path. */
  lemma SplitAppended(u: string, t: string)
    requires HasScheme(u) && HasAuthority(AfterScheme(u)) && NoMarks(Tail(u)) && NoMarks(t)
    requires Tail(u) != "" || (t != "" && t[0] == '/')
    ensures SplitClean(u + t) == Parts(Scheme(u), Authority(AfterScheme(u)), Tail(u) + t, "", "")
  {
    SchemeOfAppended(u, t);
    AuthorityOfAppended(AfterScheme(u), t);
    PathWithoutMarks(Tail(u) + t);
  }

  /** Without a path, anything but a slash ends up in the host. */
  lemma HostGrows(u: string, t: string)
    requires HasScheme(u) && HasAuthority(AfterScheme(u)) && Tail(u) == "" && t != "" && !EndsAuthority(t[0])
    ensures SplitClean(u + t).netloc != Authority(AfterScheme(u))
  {
    SchemeOfAppended(u, t);
    HostGrowsBehind(AfterScheme(u), t);
  }

  lemma HostGrowsBehind(rest: string, t: string)
    requires HasAuthority(rest) && AfterAuthority(rest) == "" && t != "" && !EndsAuthority(t[0])
    ensures |Authority(rest + t)| > |Authority(rest)|
  {
    var a := rest[2..];
    assert (rest + t)[..2] == rest[..2] && (rest + t)[2..] == a + t;
    FirstIndexFacts(a, EndsAuthority);
    assert FirstIndex(a, EndsAuthority) == |a|;
    FirstIndexFrom(a + t, EndsAuthority, |a| + 1);
  }

  lemma FirstIndexFrom(s: string, p: CharTest, n: nat)
    requires n <= |s| && forall k :: 0 <= k < n ==> !p(s[k])
    ensures FirstIndex(s, p) >= n
  {
    FirstIndexFacts(s, p);
  }

  // ---------------------------------------------------------------- the key behind the prefix

  lemma {:induction false} DropSlashes(slashes: string, key: string)
    requires AllSlashes(slashes) && key != "" && key[0] != '/'
    ensures DropWhile(slashes + key, IsSlash) == key
  {
    if slashes == "" {
      assert slashes + key == key;
    } else {
      assert (slashes + key)[1..] == slashes[1..] + key;
      DropSlashes(slashes[1..], key);
    }
  }

  /** A non-empty run of slashes behind the trimmed path is skipped with the prefix. */
  lemma SlashesSkipped(trimmed: string, slashes: string, key: string)
    requires slashes != "" && AllSlashes(slashes) && key != "" && key[0] != '/'
    ensures KeyBehind(trimmed + slashes + key, trimmed + "/") == Some(key)
  {
    var rest := slashes[1..] + key;
    assert slashes == "/" + slashes[1..];
    assert trimmed + slashes + key == (trimmed + "/") + rest;
    assert ((trimmed + "/") + rest)[|trimmed + "/"|..] == rest;
    DropSlashes(slashes[1..], key);
  }

  lemma NoSlashNoKey(trimmed: string, key: string)
    requires key != "" && key[0] != '/'
    ensures KeyBehind(trimmed + key, trimmed + "/") == None
  {
    assert (trimmed + key)[|trimmed|] != '/' && (trimmed + "/")[|trimmed|] == '/';
  }

  /** With slashes and then `x` behind a path, the key found is `x`, provided there is a slash at all. */
  lemma KeyBehindPath(path: string, slashes: string, x: string)
    requires AllSlashes(slashes) && x != "" && x[0] != '/'
    ensures KeyBehind(path + (slashes + x), DropWhileEnd(path, IsSlash) + "/") ==
            if slashes != "" || (path != "" && path[|path| - 1] == '/') then Some(x) else None
  {
    var trimmed := DropWhileEnd(path, IsSlash);
    var own := path[|trimmed|..];
    OwnSlashes(path);
    KeyBehindSlashes(trimmed, own, slashes, x);
  }

  lemma KeyBehindSlashes(trimmed: string, own: string, slashes: string, x: string)
    requires AllSlashes(own) && AllSlashes(slashes) && x != "" && x[0] != '/'
    ensures KeyBehind((trimmed + own) + (slashes + x), trimmed + "/") ==
            if slashes != "" || own != "" then Some(x) else None
  {
    Regrouped(trimmed, own, slashes, x);
    if own + slashes == "" {
      assert (trimmed + own) + (slashes + x) == trimmed + x;
      NoSlashNoKey(trimmed, x);
    } else {
      assert AllSlashes(own + slashes);
      SlashesSkipped(trimmed, own + slashes, x);
    }
  }

  // ---------------------------------------------------------------- usable bases

  /** What the decoder compares for a URL that cleans to `u`. */
  function Decoded(b: string, u: string): Option<string> {
    var p, v := UrlSplit(b), SplitClean(u);
    if v.scheme != p.scheme || v.netloc != p.netloc || v.query != "" || v.fragment != "" then None
    else KeyBehind(v.path, PathPrefix(p))
  }

  lemma KeyOfIs(base: string, url: string)
    requires url != "" && UrlSplit(ReadBase(base)).scheme != "" && UrlSplit(ReadBase(base)).netloc != ""
    ensures KeyOf(base, Some(url)) == Decoded(ReadBase(base), Clean(url))
  {
    ServingIsNotBlank(ReadBase(base));
  }

  lemma ServingIsNotBlank(b: string)
    requires UrlSplit(b).scheme != ""
    ensures b != "" && Clean(b) != ""
  {
  }

  lemma BaseTailHasNoMarks(b: string)
    requires NoMarks(b)
    ensures NoMarks(Tail(Clean(b)))
  {
    CleanHasNoBreaks(b);
    var u := Clean(b);
    forall k | 0 <= k < |u| ensures !IsHash(u[k]) && !IsQuestion(u[k]) {
      var j :| 0 <= j < |b| && b[j] == u[k];
    }
    AfterAuthorityIsPart(AfterScheme(u));
  }

  lemma MarksOfParts(a: string, b: string)
    requires NoMarks(a) && NoMarks(b)
    ensures NoMarks(a + b)
  {
  }

  /** Slashes and then `x` appended to a clean base: the path grows, and `x` is the key if a slash precedes it. */
  lemma DecodedAppended(b: string, slashes: string, x: string)
    requires ServesKeys(b) && AllSlashes(slashes) && NoMarks(x) && x != "" && x[0] != '/'
    requires Tail(Clean(b)) != "" || slashes != ""
    ensures var p := Tail(Clean(b));
            Decoded(b, Clean(b) + (slashes + x)) ==
            if slashes != "" || (p != "" && p[|p| - 1] == '/') then Some(x) else None
  {
    var u := Clean(b);
    BaseTailHasNoMarks(b);
    MarksOfParts(slashes, x);
    SplitAppended(u, slashes + x);
    PathWithoutMarks(Tail(u));
    KeyBehindPath(Tail(u), slashes, x);
  }

  lemma SlashBehind(slashes: string, x: string)
    requires AllSlashes(slashes)
    ensures slashes + ("/" + x) == (slashes + "/") + x && AllSlashes(slashes + "/")
  {
  }

  /** With harmless outer whitespace only slashes stand before the key. */
  lemma UsableBaseRoundTrips(base: string, key: string)
    requires UsableBase(base) && PlainKey(key)
    ensures KeyOf(base, Some(UrlFor(base, key))) == Some(key)
  {
    KeyOfBuilt(base, key);
    HarmlessGap(base);
    SlashBehind(CleanGap(base), key);
    DecodedAppended(ReadBase(base), CleanGap(base) + "/", key);
  }

  lemma KeyOfBuilt(base: string, key: string)
    requires ServesKeys(ReadBase(base)) && HarmlessLead(Lead(base)) && NoBreaks(key)
    ensures KeyOf(base, Some(UrlFor(base, key))) ==
            Decoded(ReadBase(base), Clean(ReadBase(base)) + (CleanGap(base) + ("/" + key)))
  {
    ServingIsNotBlank(ReadBase(base));
    CleanBuilt(base, key);
    UrlIsNotBlank(base, key);
    KeyOfIs(base, UrlFor(base, key));
  }

  lemma HarmlessGap(base: string)
    requires HarmlessTrail(Trail(base))
    ensures AllSlashes(CleanGap(base))
  {
    ResidueBlank(base);
    CoreParts(base);
  }

  lemma UrlIsNotBlank(base: string, key: string)
    ensures UrlFor(base, key) != ""
  {
    assert |UrlFor(base, key)| == |DropWhileEnd(base, IsSlash)| + 1 + |key|;
  }

  // ---------------------------------------------------------------- the other bases

  lemma ResidueIsWhitespace(base: string)
    ensures AllWhitespace(Residue(base))
  {
    TrailIsWhitespace(base);
    var t, w := Trail(base), Residue(base);
    WithoutKeepsNone(t, IsTabOrNewline);
    forall k | 0 <= k < |w| ensures IsWhitespace(w[k]) {
      assert w[k] in t;
    }
  }

  lemma WhitespaceIsNoMark(w: string)
    requires AllWhitespace(w)
    ensures NoMarks(w) && (w != "" ==> !EndsAuthority(w[0]))
  {
    forall k | 0 <= k < |w| ensures !IsHash(w[k]) && !IsQuestion(w[k]) && w[k] != '/' {
      assert IsWhitespace(w[k]);
    }
  }

  /** The last character of the trimmed base that urlsplit does not drop is a slash. */
  predicate EndsInSlash(base: string) {
    EndSlashes(base) != "" || (var p := Tail(Clean(ReadBase(base))); p != "" && p[|p| - 1] == '/')
  }

  /**
    Other whitespace behind the base stays in the URL. Behind a slash it becomes part of the key that
    is found; else it hides the key, in the host or in the path.
  */
  lemma BadTrailSpoilsEveryKey(base: string, key: string)
    requires ServesKeys(ReadBase(base)) && HarmlessLead(Lead(base)) && !HarmlessTrail(Trail(base)) && PlainKey(key)
    ensures KeyOf(base, Some(UrlFor(base, key))) ==
            if EndsInSlash(base) then Some(Residue(base) + ("/" + key)) else None
  {
    KeyOfBuilt(base, key);
    BadTrailDecoded(base, ReadBase(base), key);
  }

  lemma BadTrailDecoded(base: string, b: string, key: string)
    requires b == ReadBase(base) && ServesKeys(b) && !HarmlessTrail(Trail(base)) && PlainKey(key)
    ensures Decoded(b, Clean(b) + (CleanGap(base) + ("/" + key))) ==
            if EndsInSlash(base) then Some(Residue(base) + ("/" + key)) else None
  {
    BadTail(base, key);
    BadGap(base, "/" + key);
    DecodedBehind(b, EndSlashes(base), Residue(base) + ("/" + key));
  }

  lemma BadTail(base: string, key: string)
    requires !HarmlessTrail(Trail(base)) && PlainKey(key)
    ensures var x := Residue(base) + ("/" + key);
            Residue(base) != "" && AllSlashes(EndSlashes(base)) && NoMarks(x) && x != "" && !EndsAuthority(x[0])
  {
    ResidueBlank(base);
    ResidueIsWhitespace(base);
    WhitespaceThenKey(Residue(base), key);
    CoreParts(base);
  }

  lemma BadGap(base: string, t: string)
    requires Residue(base) != ""
    ensures CleanGap(base) + t == EndSlashes(base) + (Residue(base) + t)
  {
    assert CleanGap(base) == EndSlashes(base) + Residue(base);
    Associates(EndSlashes(base), Residue(base), t);
  }

  lemma Associates(a: string, b: string, c: string)
    ensures (a + b) + c == a + (b + c)
  {
  }

  lemma WhitespaceThenKey(w: string, key: string)
    requires AllWhitespace(w) && w != "" && PlainKey(key)
    ensures NoMarks(w + ("/" + key)) && !EndsAuthority((w + ("/" + key))[0])
  {
    WhitespaceIsNoMark(w);
    MarksOfParts("/", key);
    MarksOfParts(w, "/" + key);
    assert (w + ("/" + key))[0] == w[0];
  }

  lemma DecodedBehind(b: string, e: string, x: string)
    requires ServesKeys(b) && AllSlashes(e) && NoMarks(x) && x != "" && !EndsAuthority(x[0])
    ensures var p := Tail(Clean(b));
            Decoded(b, Clean(b) + (e + x)) == if e != "" || (p != "" && p[|p| - 1] == '/') then Some(x) else None
  {
    if Tail(Clean(b)) == "" && e == "" {
      assert e + x == x;
      HostGrows(Clean(b), x);
    } else {
      DecodedAppended(b, e, x);
    }
  }

  /** A leading whitespace character above the space is not dropped, and no scheme starts with it. */
  lemma {:induction false} BadLeadHasNoScheme(lead: string, t: string)
    requires AllWhitespace(lead) && !HarmlessLead(lead)
    ensures !HasScheme(Clean(lead + t))
  {
    var s := lead + t;
    assert s[0] == lead[0] && IsWhitespace(lead[0]) && s[1..] == lead[1..] + t;
    if IsControlOrSpace(lead[0]) {
      assert !HarmlessLead(lead[1..]) by {
        var k :| 0 <= k < |lead| && !IsControlOrSpace(lead[k]);
        assert lead[1..][k - 1] == lead[k];
      }
      BadLeadHasNoScheme(lead[1..], t);
      assert Clean(s) == Clean(s[1..]);
    } else {
      assert DropWhile(s, IsControlOrSpace) == s;
      assert Clean(s)[0] == lead[0] && !IsAsciiAlpha(lead[0]);
    }
  }

  lemma BadLeadHidesEveryKey(base: string, key: string)
    requires !HarmlessLead(Lead(base))
    ensures KeyOf(base, Some(UrlFor(base, key))) == None
  {
    if ReadBase(base) != "" {
      BuiltUrl(base, key);
      LeadIsWhitespace(base);
      BadLeadHasNoScheme(Lead(base), ReadBase(base) + (Gap(base) + ("/" + key)));
    }
  }

  predicate IsMark(c: char) { IsHash(c) || IsQuestion(c) }

  lemma {:induction false} WithoutKeeps(s: string, c: char, p: CharTest)
    requires c in s && !p(c)
    ensures c in Without(s, p)
  {
    if s[0] != c {
      assert c in s[1..];
      WithoutKeeps(s[1..], c, p);
    }
  }

  lemma {:induction false} DropWhileKeeps(s: string, c: char, p: CharTest)
    requires c in s && !p(c)
    ensures c in DropWhile(s, p)
  {
    if p(s[0]) {
      assert c in s[1..];
      DropWhileKeeps(s[1..], c, p);
    }
  }

  /** A mark that is not the last character gives a query or a fragment, or there is no scheme. */
  lemma MarkInUrl(u: string, m: nat)
    requires m < |u| - 1 && IsMark(u[m]) && !IsHash(u[|u| - 1])
    ensures MarkedSplit(SplitClean(u))
  {
    if HasScheme(u) {
      MarkReachesTail(u, m);
      MarkedTail(u);
    } else {
      NoSchemeIsMarked(u);
    }
  }

  lemma MarkReachesTail(u: string, m: nat)
    requires HasScheme(u) && m < |u| - 1 && IsMark(u[m]) && !IsHash(u[|u| - 1])
    ensures Query(Tail(u)) != "" || Fragment(Tail(u)) != ""
  {
    var k := MarkBehindScheme(u, m);
    MarkInRest(AfterScheme(u), k);
  }

  lemma MarkInRest(rest: string, k: nat)
    requires k < |rest| - 1 && IsMark(rest[k]) && !IsHash(rest[|rest| - 1])
    ensures Query(AfterAuthority(rest)) != "" || Fragment(AfterAuthority(rest)) != ""
  {
    var n := MarkBehindAuthority(rest, k);
    MarkInTail(AfterAuthority(rest), n);
  }

  lemma NoSchemeIsMarked(u: string)
    requires !HasScheme(u)
    ensures MarkedSplit(SplitClean(u))
  {
  }

  lemma MarkedTail(u: string)
    requires Query(Tail(u)) != "" || Fragment(Tail(u)) != ""
    ensures MarkedSplit(SplitClean(u))
  {
  }

  lemma MarkBehindScheme(u: string, m: nat) returns (k: nat)
    requires HasScheme(u) && m < |u| - 1 && IsMark(u[m])
    ensures var rest := AfterScheme(u);
            k < |rest| - 1 && IsMark(rest[k]) && rest[|rest| - 1] == u[|u| - 1]
  {
    var i := FirstIndex(u, IsColon);
    FirstIndexFacts(u, IsColon);
    assert !IsSchemeChar(u[m]) && !IsColon(u[m]);
    assert forall k :: 0 <= k < i ==> u[..i][k] == u[k];
    assert m > i;
    k := m - i - 1;
    assert AfterScheme(u)[k] == u[m];
  }

  lemma MarkBehindAuthority(rest: string, m: nat) returns (n: nat)
    requires m < |rest| - 1 && IsMark(rest[m])
    ensures var tail := AfterAuthority(rest);
            n < |tail| - 1 && IsMark(tail[n]) && tail[|tail| - 1] == rest[|rest| - 1]
  {
    n := m;
    if HasAuthority(rest) {
      assert rest[0] == rest[..2][0] && rest[1] == rest[..2][1];
      n := MarkBehindHost(rest[2..], m - 2);
    }
  }

  lemma MarkBehindHost(a: string, m: nat) returns (n: nat)
    requires m < |a| - 1 && IsMark(a[m])
    ensures var tail := a[FirstIndex(a, EndsAuthority)..];
            n < |tail| - 1 && IsMark(tail[n]) && tail[|tail| - 1] == a[|a| - 1]
  {
    FirstIndexFacts(a, EndsAuthority);
    assert EndsAuthority(a[m]);
    n := m - FirstIndex(a, EndsAuthority);
  }

  lemma MarkInTail(tail: string, n: nat)
    requires n < |tail| - 1 && IsMark(tail[n]) && !IsHash(tail[|tail| - 1])
    ensures Query(tail) != "" || Fragment(tail) != ""
  {
    var h := FirstIndex(tail, IsHash);
    FirstIndexFacts(tail, IsHash);
    if h == |tail| {
      FirstIndexFacts(tail, IsQuestion);
      assert UntilHash(tail) == tail && IsQuestion(tail[n]);
      assert FirstIndex(tail, IsQuestion) <= n;
    } else {
      assert h < |tail| - 1;
    }
  }

  /** With a mark in the base no URL built from it is recognised. */
  lemma MarkedBaseHidesEveryKey(base: string, key: string)
    requires !NoMarks(ReadBase(base)) && PlainKey(key)
    ensures KeyOf(base, Some(UrlFor(base, key))) == None
  {
    var prefix := DropWhileEnd(base, IsSlash);
    var c := MarkInBase(base);
    MarkedPrefix(prefix, c, key);
    assert UrlFor(base, key) == prefix + ("/" + key);
    MarkedUrlHidesKey(base, UrlFor(base, key));
  }

  lemma MarkInBase(base: string) returns (c: char)
    requires !NoMarks(ReadBase(base))
    ensures c in DropWhileEnd(base, IsSlash) && IsMark(c)
  {
    var b := ReadBase(base);
    var k :| 0 <= k < |b| && IsMark(b[k]);
    TrimmedBase(base);
    c := b[k];
    InTheMiddle(Lead(base), b, Gap(base), k);
  }

  lemma InTheMiddle(a: string, b: string, c: string, k: nat)
    requires k < |b|
    ensures b[k] in a + b + c
  {
    assert (a + b + c)[|a| + k] == b[k];
  }

  lemma MarkedUrlHidesKey(base: string, url: string)
    requires MarkedSplit(SplitClean(Clean(url)))
    ensures KeyOf(base, Some(url)) == None
  {
  }

  lemma MarkedPrefix(prefix: string, c: char, key: string)
    requires c in prefix && IsMark(c) && PlainKey(key)
    ensures MarkedSplit(SplitClean(Clean(prefix + ("/" + key))))
  {
    MarkSurvives(prefix, c);
    CleanWithKey(prefix, key);
    MarkAppended(Clean(prefix), c, "/" + key);
  }

  lemma CleanWithKey(prefix: string, key: string)
    requires Clean(prefix) != "" && PlainKey(key)
    ensures Clean(prefix + ("/" + key)) == Clean(prefix) + ("/" + key)
    ensures !IsHash(("/" + key)[|key|])
  {
    CleanConcat(prefix, "/" + key);
    WithoutKeepsNone("/" + key, IsTabOrNewline);
    assert ("/" + key)[|key|] == key[|key| - 1];
  }

  predicate MarkedSplit(v: Parts) { v.scheme == "" || v.query != "" || v.fragment != "" }

  lemma MarkAppended(v: string, c: char, t: string)
    requires c in v && IsMark(c) && t != "" && !IsHash(t[|t| - 1])
    ensures MarkedSplit(SplitClean(v + t))
  {
    var m :| 0 <= m < |v| && v[m] == c;
    assert (v + t)[m] == c && (v + t)[|v + t| - 1] == t[|t| - 1];
    MarkInUrl(v + t, m);
  }

  lemma MarkSurvives(s: string, c: char)
    requires c in s && IsMark(c)
    ensures c in Clean(s)
  {
    DropWhileKeeps(s, c, IsControlOrSpace);
    WithoutKeeps(DropWhile(s, IsControlOrSpace), c, IsTabOrNewline);
  }

  // ---------------------------------------------------------------- main results

  /** Every base, every key: the built URL decodes to the key exactly if the key is plain and the base usable. */
  lemma RoundTripIff(base: string, key: string)
    ensures KeyOf(base, Some(UrlFor(base, key))) == Some(key) <==> PlainKey(key) && UsableBase(base)
  {
    if !PlainKey(key) {
      DecodedKeysArePlain(base, Some(UrlFor(base, key)));
    } else if UsableBase(base) {
      UsableBaseRoundTrips(base, key);
    } else if !HarmlessLead(Lead(base)) {
      BadLeadHidesEveryKey(base, key);
    } else if !NoMarks(ReadBase(base)) {
      MarkedBaseHidesEveryKey(base, key);
    } else if ServesKeys(ReadBase(base)) {
      BadTrailSpoilsEveryKey(base, key);
      ResidueLengthens(base, key);
    } else {
      UnservedBaseHidesEveryKey(base, key);
    }
  }

  lemma ResidueLengthens(base: string, key: string)
    ensures Residue(base) + ("/" + key) != key
  {
    assert |Residue(base) + ("/" + key)| > |key|;
  }

  lemma UnservedBaseHidesEveryKey(base: string, key: string)
    requires UrlSplit(ReadBase(base)).scheme == "" || UrlSplit(ReadBase(base)).netloc == ""
    ensures KeyOf(base, Some(UrlFor(base, key))) == None
  {
  }

  /** Building is injective on plain keys, for every base: what stands before the key is the same. */
  lemma BuiltUrlsAreDistinct(base: string, k1: string, k2: string)
    requires UrlFor(base, k1) == UrlFor(base, k2)
    ensures k1 == k2
  {
    var prefix := DropWhileEnd(base, IsSlash) + "/";
    assert k1 == UrlFor(base, k1)[|prefix|..] && k2 == UrlFor(base, k2)[|prefix|..];
  }

  /**
    For every URL that decodes: rebuilding the URL of its key and decoding again changes nothing, if the
    base is usable.
  */
  lemma DecodeBuildDecode(base: string, url: Option<string>)
    ensures KeyOf(base, url).Some? ==>
              (KeyOf(base, Some(UrlFor(base, KeyOf(base, url).value))) == KeyOf(base, url) <==> UsableBase(base))
  {
    if KeyOf(base, url).Some? {
      DecodedKeysArePlain(base, url);
      RoundTripIff(base, KeyOf(base, url).value);
    }
  }

  // ---------------------------------------------------------------- usable bases exist

  predicate Letters(s: string) { forall k :: 0 <= k < |s| ==> 'a' <= s[k] <= 'z' || s[k] == '.' }

  lemma CleanOfVisible(s: string)
    requires Visible(s)
    ensures Clean(s) == s
  {
    assert DropWhile(s, IsControlOrSpace) == s;
    WithoutKeepsNone(s, IsTabOrNewline);
  }

  lemma SchemeOfPlain(scheme: string, rest: string)
    requires scheme != "" && Letters(scheme) && scheme[0] != '.'
    ensures var u := scheme + ":" + rest;
            HasScheme(u) && AfterScheme(u) == rest && Scheme(u) != ""
  {
    var u := scheme + ":" + rest;
    FirstIndexIs(u, IsColon, |scheme|);
    assert forall k :: 0 <= k < |scheme| ==> u[k] == scheme[k];
    assert u[|scheme| + 1..] == rest;
  }

  lemma HostOfPlain(host: string)
    requires Letters(host)
    ensures Authority("//" + host) == host
  {
    var rest := "//" + host;
    assert rest[..2] == "//" && rest[2..] == host;
    FirstIndexIs(host, EndsAuthority, |host|);
  }

  /** The characters of a plain base: visible, and neither `#` nor `?`. */
  predicate BaseChar(c: char) { 'a' <= c <= 'z' || c == '.' || c == ':' || c == '/' }

  predicate BaseText(s: string) { forall k :: 0 <= k < |s| ==> BaseChar(s[k]) }

  lemma PlainBaseChars(scheme: string, host: string)
    requires Letters(scheme) && Letters(host)
    ensures BaseText(scheme + ":" + ("//" + host))
  {
    var base := scheme + ":" + ("//" + host);
    forall k | 0 <= k < |base| ensures BaseChar(base[k]) {
      if k >= |scheme| + 3 {
        assert base[k] == host[k - |scheme| - 3];
      } else if k < |scheme| {
        assert base[k] == scheme[k];
      }
    }
  }

  lemma NothingToDrop(s: string, p: CharTest)
    requires s != ""
    ensures !p(s[0]) ==> DropWhile(s, p) == s
    ensures !p(s[|s| - 1]) ==> DropWhileEnd(s, p) == s
  {
  }

  lemma NothingToStrip(base: string)
    requires base != "" && !IsWhitespace(base[0]) && !IsWhitespace(base[|base| - 1]) && !IsSlash(base[|base| - 1])
    ensures ReadBase(base) == base && Lead(base) == "" && Trail(base) == ""
  {
    NothingToDrop(base, IsWhitespace);
    NothingToDrop(base, IsSlash);
  }

  predicate Visible(s: string) { forall k :: 0 <= k < |s| ==> s[k] > ' ' && !IsWhitespace(s[k]) }

  lemma BaseTextIsVisible(base: string)
    requires BaseText(base)
    ensures NoMarks(base) && Visible(base)
  {
    forall k | 0 <= k < |base| ensures base[k] > ' ' && !IsWhitespace(base[k]) && !IsMark(base[k]) {
      assert BaseChar(base[k]);
    }
  }

  lemma UsableAsWritten(base: string)
    requires base != "" && Visible(base) && NoMarks(base) && !IsSlash(base[|base| - 1])
    requires Scheme(base) != "" && Authority(AfterScheme(base)) != ""
    ensures UsableBase(base)
  {
    NothingToStrip(base);
    CleanOfVisible(base);
    ServesAsWritten(base);
    UsableWithout(base);
  }

  lemma ServesAsWritten(b: string)
    requires Clean(b) == b && NoMarks(b) && Scheme(b) != "" && Authority(AfterScheme(b)) != ""
    ensures ServesKeys(b)
  {
  }

  lemma UsableWithout(base: string)
    requires ServesKeys(ReadBase(base)) && Lead(base) == "" && Trail(base) == ""
    ensures UsableBase(base)
  {
  }

  /** Every scheme and host written in letters and dots make a usable base. */
  lemma PlainBasesAreUsable(scheme: string, host: string)
    requires scheme != "" && Letters(scheme) && scheme[0] != '.' && host != "" && Letters(host)
    ensures UsableBase(scheme + ":" + ("//" + host))
  {
    var base := scheme + ":" + ("//" + host);
    assert base[|base| - 1] == host[|host| - 1];
    PlainBaseChars(scheme, host);
    BaseTextIsVisible(base);
    SchemeOfPlain(scheme, "//" + host);
    HostOfPlain(host);
    UsableAsWritten(base);
  }
}
