/**
  Public avatar URLs and object keys: `urlsplit` as the Python library does it (section 3 and
  Appendix B of RFC 3986, after dropping leading controls and every tab and line break), the
  decoder `managed_avatar_object_key_from_public_url` and the URL built for a new upload.
*/
module AvatarUrl {
  import opened Prelude

  type CharTest = char -> bool

  function DropWhile(s: string, p: CharTest): (r: string)
    ensures |r| <= |s|
  {
    if s != "" && p(s[0]) then DropWhile(s[1..], p) else s
  }

  function DropWhileEnd(s: string, p: CharTest): (r: string)
    ensures |r| <= |s|
  {
    if s != "" && p(s[|s| - 1]) then DropWhileEnd(s[..|s| - 1], p) else s
  }

  function Without(s: string, p: CharTest): string {
    if s == "" then ""
    else if p(s[0]) then Without(s[1..], p)
    else [s[0]] + Without(s[1..], p)
  }

  /** The first index whose character satisfies `p`, or the length. */
  function FirstIndex(s: string, p: CharTest): (i: nat)
    ensures i <= |s|
  {
    if s == "" || p(s[0]) then 0 else 1 + FirstIndex(s[1..], p)
  }

  predicate IsSlash(c: char) { c == '/' }
  predicate IsColon(c: char) { c == ':' }
  predicate IsHash(c: char) { c == '#' }
  predicate IsQuestion(c: char) { c == '?' }
  predicate EndsAuthority(c: char) { c == '/' || c == '?' || c == '#' }
  predicate IsControlOrSpace(c: char) { c <= ' ' }
  predicate IsTabOrNewline(c: char) { c == '\t' || c == '\r' || c == '\n' }
  predicate IsAsciiAlpha(c: char) { 'a' <= c <= 'z' || 'A' <= c <= 'Z' }
  predicate IsSchemeChar(c: char) { IsAsciiAlpha(c) || '0' <= c <= '9' || c == '+' || c == '-' || c == '.' }

  /** What `str.strip()` removes. */
  predicate IsWhitespace(c: char) {
    || '\t' <= c <= '\r' || '\U{1c}' <= c <= ' ' || c == '\U{85}' || c == '\U{a0}' || c == '\U{1680}'
    || '\U{2000}' <= c <= '\U{200a}' || c == '\U{2028}' || c == '\U{2029}' || c == '\U{202f}' || c == '\U{205f}'
        || c == '\U{3000}'
  }

  function LowerChar(c: char): char {
    if 'A' <= c <= 'Z' then (c as int + 32) as char else c
  }

  function Lower(s: string): string {
    seq(|s|, i requires 0 <= i < |s| => LowerChar(s[i]))
  }

  datatype Parts = Parts(scheme: string, netloc: string, path: string, query: string, fragment: string)

  function Clean(url: string): string { Without(DropWhile(url, IsControlOrSpace), IsTabOrNewline) }

  predicate SchemeText(s: string) { forall k :: 0 <= k < |s| ==> IsSchemeChar(s[k]) }

  predicate HasScheme(u: string) {
    var i := FirstIndex(u, IsColon);
    0 < i < |u| && IsAsciiAlpha(u[0]) && SchemeText(u[..i])
  }

  function AfterScheme(u: string): string {
    if HasScheme(u) then u[FirstIndex(u, IsColon) + 1..] else u
  }

  predicate HasAuthority(rest: string) { |rest| >= 2 && rest[..2] == "//" }

  /** Everything behind the authority: path, query and fragment. */
  function AfterAuthority(rest: string): string {
    if HasAuthority(rest) then rest[2..][FirstIndex(rest[2..], EndsAuthority)..] else rest
  }

  function Authority(rest: string): string {
    if HasAuthority(rest) then rest[2..][..FirstIndex(rest[2..], EndsAuthority)] else ""
  }

  function Scheme(u: string): string {
    if HasScheme(u) then Lower(u[..FirstIndex(u, IsColon)]) else ""
  }

  function Behind(s: string, i: nat): string { if i < |s| then s[i + 1..] else "" }

  function UntilHash(tail: string): string { tail[..FirstIndex(tail, IsHash)] }

  function Path(tail: string): string { UntilHash(tail)[..FirstIndex(UntilHash(tail), IsQuestion)] }
  function Query(tail: string): string { Behind(UntilHash(tail), FirstIndex(UntilHash(tail), IsQuestion)) }
  function Fragment(tail: string): string { Behind(tail, FirstIndex(tail, IsHash)) }

  function Tail(u: string): string { AfterAuthority(AfterScheme(u)) }

  function SplitClean(u: string): Parts {
    Parts(Scheme(u), Authority(AfterScheme(u)), Path(Tail(u)), Query(Tail(u)), Fragment(Tail(u)))
  }

  function UrlSplit(url: string): Parts { SplitClean(Clean(url)) }

  /** `base.strip()`, and the outer whitespace it removes. */
  function Core(base: string): string { DropWhile(DropWhileEnd(base, IsWhitespace), IsWhitespace) }
  function Lead(base: string): string { base[..|DropWhileEnd(base, IsWhitespace)| - |Core(base)|] }
  function Trail(base: string): string { base[|DropWhileEnd(base, IsWhitespace)|..] }

  /** The configured base as the decoder reads it. */
  function ReadBase(base: string): string { DropWhileEnd(Core(base), IsSlash) }

  function PathPrefix(base: Parts): string { DropWhileEnd(base.path, IsSlash) + "/" }

  predicate StartsWith(s: string, prefix: string) { prefix <= s }

  function KeyBehind(path: string, prefix: string): Option<string> {
    if !StartsWith(path, prefix) then None
    else
      var key := DropWhile(path[|prefix|..], IsSlash);
      if key == "" then None else Some(key)
  }

  /** `managed_avatar_object_key_from_public_url` for the configured base URL. */
  function KeyOf(base: string, url: Option<string>): Option<string> {
    if url.None? || url.value == "" || ReadBase(base) == "" then None
    else
      var b, u := UrlSplit(ReadBase(base)), UrlSplit(url.value);
      if b.scheme == "" || b.netloc == "" || u.scheme != b.scheme || u.netloc != b.netloc || u.query != ""
          || u.fragment != "" then None
      else KeyBehind(u.path, PathPrefix(b))
  }

  /** The public URL handed out for a new object. */
  function UrlFor(base: string, key: string): string {
    DropWhileEnd(base, IsSlash) + "/" + key
  }

  /** Keys that survive in a URL: non-empty, no query or fragment mark, no leading slash, no tab or line break. */
  predicate PlainKey(key: string) {
    && key != "" && key[0] != '/'
    && forall k :: 0 <= k < |key| ==> !IsHash(key[k]) && !IsQuestion(key[k]) && !IsTabOrNewline(key[k])
  }

  predicate NoMarks(s: string) { forall k :: 0 <= k < |s| ==> !IsHash(s[k]) && !IsQuestion(s[k]) }

  predicate NoBreaks(s: string) { forall k :: 0 <= k < |s| ==> !IsTabOrNewline(s[k]) }

  /** Scheme and host, and nothing that would end the path. */
  predicate ServesKeys(b: string) { UrlSplit(b).scheme != "" && UrlSplit(b).netloc != "" && NoMarks(b) }

  /** Outer whitespace that the decoder strips from the base and drops from every URL as well. */
  predicate HarmlessLead(lead: string) { forall k :: 0 <= k < |lead| ==> IsControlOrSpace(lead[k]) }
  predicate HarmlessTrail(trail: string) { forall k :: 0 <= k < |trail| ==> IsTabOrNewline(trail[k]) }

  predicate UsableBase(base: string) {
    ServesKeys(ReadBase(base)) && HarmlessLead(Lead(base)) && HarmlessTrail(Trail(base))
  }

  // ---------------------------------------------------------------- string lemmas

  lemma {:induction false} DropWhileConcat(s: string, t: string, p: CharTest)
    requires DropWhile(s, p) != ""
    ensures DropWhile(s + t, p) == DropWhile(s, p) + t
  {
    if s != "" && p(s[0]) {
      assert (s + t)[1..] == s[1..] + t;
      DropWhileConcat(s[1..], t, p);
    }
  }

  lemma {:induction false} WithoutConcat(s: string, t: string, p: CharTest)
    ensures Without(s + t, p) == Without(s, p) + Without(t, p)
  {
    if s == "" {
      assert s + t == t;
    } else {
      assert (s + t)[1..] == s[1..] + t;
      WithoutConcat(s[1..], t, p);
    }
  }

  lemma {:induction false} WithoutKeepsNone(s: string, p: CharTest)
    ensures forall k :: 0 <= k < |Without(s, p)| ==> !p(Without(s, p)[k]) && Without(s, p)[k] in s
    ensures (forall k :: 0 <= k < |s| ==> !p(s[k])) ==> Without(s, p) == s
  {
    if s != "" {
      WithoutKeepsNone(s[1..], p);
      var rest := Without(s[1..], p);
      forall k | 0 <= k < |rest| ensures rest[k] in s {
        assert rest[k] in s[1..];
      }
    }
  }

  lemma {:induction false} DropWhileIsSuffix(s: string, p: CharTest)
    ensures s[|s| - |DropWhile(s, p)|..] == DropWhile(s, p)
  {
    if s != "" && p(s[0]) {
      DropWhileIsSuffix(s[1..], p);
    }
  }

  lemma {:induction false} DropWhileStops(s: string, p: CharTest)
    ensures DropWhile(s, p) != "" ==> !p(DropWhile(s, p)[0])
    ensures forall k :: 0 <= k < |s| - |DropWhile(s, p)| ==> p(s[k])
  {
    if s != "" && p(s[0]) {
      DropWhileStops(s[1..], p);
      forall k | 0 <= k < |s| - |DropWhile(s, p)| ensures p(s[k]) {
        if k > 0 {
          assert s[k] == s[1..][k - 1];
        }
      }
    }
  }

  lemma {:induction false} DropWhileEndIsPrefix(s: string, p: CharTest)
    ensures DropWhileEnd(s, p) <= s
    ensures forall k :: |DropWhileEnd(s, p)| <= k < |s| ==> p(s[k])
    ensures DropWhileEnd(s, p) != "" ==> !p(DropWhileEnd(s, p)[|DropWhileEnd(s, p)| - 1])
  {
    if s != "" && p(s[|s| - 1]) {
      DropWhileEndIsPrefix(s[..|s| - 1], p);
    }
  }

  /** What is before the first index, and what is there. */
  lemma {:induction false} FirstIndexFacts(s: string, p: CharTest)
    ensures forall k :: 0 <= k < FirstIndex(s, p) ==> !p(s[k])
    ensures FirstIndex(s, p) < |s| ==> p(s[FirstIndex(s, p)])
  {
    if s != "" && !p(s[0]) {
      FirstIndexFacts(s[1..], p);
      forall k | 0 <= k < FirstIndex(s, p) ensures !p(s[k]) {
        assert k > 0 ==> s[k] == s[1..][k - 1];
      }
    }
  }

  lemma {:induction false} FirstIndexIs(s: string, p: CharTest, i: nat)
    requires i <= |s| && (i < |s| ==> p(s[i])) && forall k :: 0 <= k < i ==> !p(s[k])
    ensures FirstIndex(s, p) == i
  {
    if i > 0 {
      FirstIndexIs(s[1..], p, i - 1);
    }
  }

  // ---------------------------------------------------------------- decoding yields plain keys

  lemma CleanHasNoBreaks(url: string)
    ensures forall k :: 0 <= k < |Clean(url)| ==> !IsTabOrNewline(Clean(url)[k]) && Clean(url)[k] in url
  {
    var d := DropWhile(url, IsControlOrSpace);
    WithoutKeepsNone(d, IsTabOrNewline);
    DropWhileIsSuffix(url, IsControlOrSpace);
    assert d == url[|url| - |d|..];
    forall k | 0 <= k < |Clean(url)| ensures Clean(url)[k] in url {
      assert Clean(url)[k] in d;
    }
  }

  lemma PathIsClean(url: string)
    ensures NoMarks(UrlSplit(url).path) && NoBreaks(UrlSplit(url).path)
  {
    CleanHasNoBreaks(url);
    var u := Clean(url);
    var rest := AfterScheme(u);
    assert NoBreaks(u) && NoBreaks(rest);
    var tail := AfterAuthority(rest);
    AfterAuthorityIsPart(rest);
    assert NoBreaks(tail);
    PathHasNoMarks(tail);
  }

  lemma PathHasNoMarks(tail: string)
    ensures NoMarks(Path(tail))
  {
    FirstIndexFacts(tail, IsHash);
    FirstIndexFacts(UntilHash(tail), IsQuestion);
  }

  lemma AfterAuthorityIsPart(rest: string)
    ensures forall k :: 0 <= k < |AfterAuthority(rest)| ==> AfterAuthority(rest)[k] in rest
  {
  }

  lemma KeyBehindIsPlain(path: string, prefix: string)
    requires NoMarks(path) && NoBreaks(path)
    ensures KeyBehind(path, prefix).Some? ==> PlainKey(KeyBehind(path, prefix).value)
  {
    if StartsWith(path, prefix) {
      var tail := path[|prefix|..];
      var key := DropWhile(tail, IsSlash);
      DropWhileStops(tail, IsSlash);
      DropWhileIsSuffix(tail, IsSlash);
      assert key == path[|path| - |key|..];
      SuffixIsPlain(path, |path| - |key|);
    }
  }

  lemma SuffixIsPlain(path: string, m: nat)
    requires NoMarks(path) && NoBreaks(path) && m <= |path|
    ensures m < |path| && path[m] != '/' ==> PlainKey(path[m..])
  {
  }

  /** Whatever URL is decoded, the resulting key is plain. */
  lemma DecodedKeysArePlain(base: string, url: Option<string>)
    ensures KeyOf(base, url).Some? ==> PlainKey(KeyOf(base, url).value)
  {
    if url.Some? {
      PathIsClean(url.value);
      KeyBehindIsPlain(UrlSplit(url.value).path, PathPrefix(UrlSplit(ReadBase(base))));
    }
  }
}
