/** For every base and every URL: exactly which URLs name an object, and which object. */
module AvatarSpellings {
  import opened Prelude
  import opened AvatarUrl
  import opened AvatarRoundTrip

  /** An empty query and an empty fragment may be written out. */
  predicate Marks(m: string) { m == "" || m == "?" || m == "#" || m == "?#" }

  /** The path of the base without its trailing slashes. */
  function BasePath(b: Parts): string { DropWhileEnd(b.path, IsSlash) }

  /**
    A cleaned URL spells a key: the scheme of the base in upper or lower case, its host, its path, one or
    more slashes, the key, and empty marks.
  */
  predicate IsSpelling(b: Parts, u: string, key: string, scheme: string, slashes: string, marks: string) {
    && Lower(scheme) == b.scheme && slashes != "" && AllSlashes(slashes) && Marks(marks)
    && u == scheme + (":" + ("//" + (b.netloc + (BasePath(b) + slashes + key + marks))))
  }

  ghost predicate Spells(b: Parts, u: string, key: string) {
    exists scheme, slashes, marks :: IsSpelling(b, u, key, scheme, slashes, marks)
  }

  // ---------------------------------------------------------------- taking a URL apart

  lemma SchemeApart(u: string)
    requires Scheme(u) != ""
    ensures var i := FirstIndex(u, IsColon);
            HasScheme(u) && Lower(u[..i]) == Scheme(u) && u == u[..i] + (":" + AfterScheme(u))
  {
    FirstIndexFacts(u, IsColon);
  }

  lemma AuthorityApart(rest: string)
    requires Authority(rest) != ""
    ensures HasAuthority(rest) && rest == "//" + (Authority(rest) + AfterAuthority(rest))
  {
  }

  lemma MarksApart(tail: string) returns (marks: string)
    requires Query(tail) == "" && Fragment(tail) == ""
    ensures Marks(marks) && tail == Path(tail) + marks
  {
    var h := FirstIndex(tail, IsHash);
    FirstIndexFacts(tail, IsHash);
    var hash := if h < |tail| then "#" else "";
    assert tail == UntilHash(tail) + hash by {
      if h < |tail| {
        assert tail[h] == '#' && tail[h + 1..] == "";
        assert tail == tail[..h] + [tail[h]] + tail[h + 1..];
      }
    }
    var question := QuestionApart(UntilHash(tail));
    marks := question + hash;
  }

  lemma QuestionApart(s: string) returns (question: string)
    requires Behind(s, FirstIndex(s, IsQuestion)) == ""
    ensures s == s[..FirstIndex(s, IsQuestion)] + question && (question == "" || question == "?")
  {
    var q := FirstIndex(s, IsQuestion);
    FirstIndexFacts(s, IsQuestion);
    question := if q < |s| then "?" else "";
    if q < |s| {
      assert s[q] == '?' && s[q + 1..] == "";
      assert s == s[..q] + [s[q]] + s[q + 1..];
    }
  }

  lemma KeyApart(path: string, trimmed: string) returns (slashes: string)
    requires KeyBehind(path, trimmed + "/").Some?
    ensures slashes != "" && AllSlashes(slashes)
    ensures path == trimmed + slashes + KeyBehind(path, trimmed + "/").value
  {
    var prefix := trimmed + "/";
    var rest, key := path[|prefix|..], KeyBehind(path, prefix).value;
    var more := SlashesApart(rest);
    slashes := "/" + more;
    SlashMoves(trimmed, more, key);
    assert path == prefix + rest;
  }

  lemma SlashesApart(rest: string) returns (more: string)
    ensures rest == more + DropWhile(rest, IsSlash) && AllSlashes(more)
  {
    DropWhileIsSuffix(rest, IsSlash);
    DropWhileStops(rest, IsSlash);
    more := rest[..|rest| - |DropWhile(rest, IsSlash)|];
  }

  lemma SlashMoves(trimmed: string, more: string, key: string)
    ensures (trimmed + "/") + (more + key) == trimmed + ("/" + more) + key
  {
  }

  lemma DecodedIsSpelled(b: Parts, u: string, key: string)
    requires b.scheme != "" && b.netloc != ""
    requires var v := SplitClean(u);
             && v.scheme == b.scheme && v.netloc == b.netloc && v.query == "" && v.fragment == ""
             && KeyBehind(v.path, PathPrefix(b)) == Some(key)
    ensures Spells(b, u, key)
  {
    var rest, tail := AfterScheme(u), Tail(u);
    SchemeApart(u);
    AuthorityApart(rest);
    var marks := MarksApart(tail);
    var slashes := KeyApart(Path(tail), BasePath(b));
    assert IsSpelling(b, u, key, u[..FirstIndex(u, IsColon)], slashes, marks);
  }

  // ---------------------------------------------------------------- putting a URL together

  /** The lower-case text of some scheme. */
  predicate SchemeLike(s: string) { s != "" && IsAsciiAlpha(s[0]) && SchemeText(s) }

  lemma SchemesAreLike(u: string)
    requires Scheme(u) != ""
    ensures SchemeLike(Scheme(u))
  {
    var s := u[..FirstIndex(u, IsColon)];
    forall k | 0 <= k < |s| ensures IsSchemeChar(LowerChar(s[k])) {
      assert IsSchemeChar(s[k]);
    }
  }

  lemma SchemeTogether(scheme: string, rest: string)
    requires SchemeLike(Lower(scheme))
    ensures var u := scheme + (":" + rest); Scheme(u) == Lower(scheme) && AfterScheme(u) == rest
  {
    var u := scheme + (":" + rest);
    assert |Lower(scheme)| == |scheme|;
    forall k | 0 <= k < |scheme| ensures IsSchemeChar(scheme[k]) && !IsColon(u[k]) {
      assert IsSchemeChar(Lower(scheme)[k]) && u[k] == scheme[k];
    }
    assert IsAsciiAlpha(Lower(scheme)[0]);
    FirstIndexIs(u, IsColon, |scheme|);
    assert u[..|scheme|] == scheme && u[|scheme| + 1..] == rest;
  }

  predicate HostLike(s: string) { forall k :: 0 <= k < |s| ==> !EndsAuthority(s[k]) }

  lemma HostsAreLike(rest: string)
    ensures HostLike(Authority(rest))
  {
    if HasAuthority(rest) {
      FirstIndexFacts(rest[2..], EndsAuthority);
    }
  }

  lemma AuthorityTogether(host: string, tail: string)
    requires HostLike(host) && tail != "" && EndsAuthority(tail[0])
    ensures var rest := "//" + (host + tail); Authority(rest) == host && AfterAuthority(rest) == tail
  {
    var rest := "//" + (host + tail);
    assert rest[..2] == "//" && rest[2..] == host + tail;
    forall k | 0 <= k < |host| ensures !EndsAuthority((host + tail)[k]) {
      assert (host + tail)[k] == host[k];
    }
    FirstIndexIs(host + tail, EndsAuthority, |host|);
    assert (host + tail)[..|host|] == host && (host + tail)[|host|..] == tail;
  }

  lemma PathTogether(path: string, marks: string)
    requires NoMarks(path) && Marks(marks)
    ensures var tail := path + marks; Path(tail) == path && Query(tail) == "" && Fragment(tail) == ""
  {
    var tail := path + marks;
    var question := if marks != "" && marks[0] == '?' then "?" else "";
    var front := path + question;
    assert forall k :: 0 <= k < |front| ==> tail[k] == front[k] && !IsHash(front[k]);
    FirstIndexIs(tail, IsHash, |front|);
    assert UntilHash(tail) == front;
    assert forall k :: 0 <= k < |path| ==> front[k] == path[k] && !IsQuestion(path[k]);
    FirstIndexIs(front, IsQuestion, |path|);
    assert front[..|path|] == path;
  }

  /** The path of a base has no marks and, behind a host, begins with a slash if it is not empty. */
  lemma PathsOfBases(u: string)
    requires Scheme(u) != "" && Authority(AfterScheme(u)) != ""
    ensures NoMarks(Path(Tail(u))) && (Path(Tail(u)) != "" ==> Path(Tail(u))[0] == '/')
  {
    PathHasNoMarks(Tail(u));
    var rest := AfterScheme(u);
    FirstIndexFacts(rest[2..], EndsAuthority);
    FirstIndexFacts(Tail(u), IsHash);
    FirstIndexFacts(UntilHash(Tail(u)), IsQuestion);
    if Path(Tail(u)) != "" {
      assert Path(Tail(u))[0] == Tail(u)[0] == UntilHash(Tail(u))[0];
      assert EndsAuthority(Tail(u)[0]);
    }
  }

  predicate BaseLike(b: Parts) {
    SchemeLike(b.scheme) && HostLike(b.netloc) && NoMarks(b.path) && (b.path != "" ==> b.path[0] == '/')
  }

  lemma BasesAreLike(u: string)
    requires SplitClean(u).scheme != "" && SplitClean(u).netloc != ""
    ensures BaseLike(SplitClean(u))
  {
    SchemesAreLike(u);
    HostsAreLike(AfterScheme(u));
    PathsOfBases(u);
  }

  lemma SpelledIsDecoded(b: Parts, u: string, key: string, scheme: string, slashes: string, marks: string)
    requires BaseLike(b) && PlainKey(key) && IsSpelling(b, u, key, scheme, slashes, marks)
    ensures var v := SplitClean(u);
            && v.scheme == b.scheme && v.netloc == b.netloc && v.query == "" && v.fragment == ""
            && KeyBehind(v.path, PathPrefix(b)) == Some(key)
  {
    var path := BasePath(b) + slashes + key;
    var tail := path + marks;
    DropWhileEndIsPrefix(b.path, IsSlash);
    assert BasePath(b) != "" ==> BasePath(b)[0] == b.path[0];
    assert forall k :: 0 <= k < |BasePath(b)| ==> BasePath(b)[k] == b.path[k];
    assert tail[0] == '/';
    assert NoMarks(path);
    SchemeTogether(scheme, "//" + (b.netloc + tail));
    AuthorityTogether(b.netloc, tail);
    PathTogether(path, marks);
    SlashesSkipped(BasePath(b), slashes, key);
  }

  // ---------------------------------------------------------------- the decoder, exactly

  /**
    For every configured base, every URL and every key: the decoder answers the key exactly if it is a
    plain key, the base has a scheme and a host, and the URL, freed of leading controls and spaces and of
    every tab and line break, spells it.
  */
  lemma KeyOfIff(base: string, url: string, key: string)
    ensures var b := UrlSplit(ReadBase(base));
            KeyOf(base, Some(url)) == Some(key) <==>
            b.scheme != "" && b.netloc != "" && PlainKey(key) && Spells(b, Clean(url), key)
  {
    var b, u := UrlSplit(ReadBase(base)), Clean(url);
    if KeyOf(base, Some(url)) == Some(key) {
      DecodedKeysArePlain(base, Some(url));
      DecodedIsSpelled(b, u, key);
    }
    if b.scheme != "" && b.netloc != "" && PlainKey(key) && Spells(b, u, key) {
      var scheme, slashes, marks :| IsSpelling(b, u, key, scheme, slashes, marks);
      BasesAreLike(Clean(ReadBase(base)));
      SpelledIsDecoded(b, u, key, scheme, slashes, marks);
      assert u != "";
      ServingIsNotBlank(ReadBase(base));
    }
  }

  /** No URL spells two keys, and a URL without a spelling has none. */
  lemma OneKeyPerUrl(base: string, url: string, k1: string, k2: string)
    requires var b := UrlSplit(ReadBase(base)); b.scheme != "" && b.netloc != ""
    requires PlainKey(k1) && PlainKey(k2)
    requires var b := UrlSplit(ReadBase(base)); Spells(b, Clean(url), k1) && Spells(b, Clean(url), k2)
    ensures k1 == k2
  {
    KeyOfIff(base, url, k1);
    KeyOfIff(base, url, k2);
  }
}
