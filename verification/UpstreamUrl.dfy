/** How crates/app-server/src/chat_completions.rs turns a configured base URL into the address of
    the chat-completions endpoint: a version segment is kept, added or taken off. */
module UpstreamUrl {
  import opened Options
  import opened Text

  function WithoutSlashes(url: string): string {
    TrimEndChar(url, '/')
  }

  function LastSlash(url: string): (r: Option<nat>)
    ensures r.Some? ==> r.value < |url| && url[r.value] == '/' && '/' !in url[r.value + 1..]
    ensures r.None? ==> '/' !in url
  {
    if url == [] then None
    else if url[|url| - 1] == '/' then Some(|url| - 1)
    else
      var r := LastSlash(url[..|url| - 1]);
      if r.Some? then assert url[r.value + 1..] == url[..|url| - 1][r.value + 1..] + [url[|url| - 1]]; r else r
  }

  /** rsplit('/').next(): what follows the last slash, or everything. */
  function LastSegment(url: string): string {
    var at := LastSlash(url);
    if at.Some? then url[at.value + 1..] else url
  }

  predicate AllDigits(s: string) {
    forall i :: 0 <= i < |s| ==> '0' <= s[i] <= '9'
  }

  predicate IsNumberedVersion(segment: string) {
    |segment| >= 2 && (segment[0] == 'v' || segment[0] == 'V') && AllDigits(segment[1..])
  }

  predicate IsBeta(segment: string) {
    Lower(segment) == "beta"
  }

  predicate IsVersionSegment(segment: string) {
    IsBeta(segment) || IsNumberedVersion(segment)
  }

  function Versioned(baseUrl: string): string {
    WithVersion(WithoutSlashes(baseUrl))
  }

  function WithVersion(trimmed: string): string {
    if IsVersionSegment(LastSegment(trimmed)) then trimmed else trimmed + "/v1"
  }

  function Unversioned(baseUrl: string): string {
    WithoutVersion(WithoutSlashes(baseUrl))
  }

  function WithoutVersion(trimmed: string): string {
    var at := LastSlash(trimmed);
    if at.Some? && IsVersionSegment(trimmed[at.value + 1..]) then trimmed[..at.value] else trimmed
  }

  function TrimStartChar(s: string, c: char): string {
    if s != [] && s[0] == c then TrimStartChar(s[1..], c) else s
  }

  predicate HasSuffix(suffix: Option<string>) {
    suffix.Some? && Trim(suffix.value) != ""
  }

  function Endpoint(baseUrl: string, suffix: Option<string>): string {
    EndpointOf(WithoutSlashes(baseUrl), suffix)
  }

  function EndpointOf(base: string, suffix: Option<string>): string {
    if HasSuffix(suffix) then Unversioned(base) + "/" + TrimStartChar(suffix.value, '/')
    else
      var versioned := Versioned(base);
      WithoutSlashes(if IsBeta(LastSegment(versioned)) then Unversioned(base) + "/v1" else versioned) + "/chat/completions"
  }

  // ---- Segments ----

  lemma {:induction false} SplitAtSegment(front: string, segment: string)
    requires '/' !in segment
    ensures LastSlash(front + "/" + segment) == Some(|front|)
    ensures LastSegment(front + "/" + segment) == segment
    ensures (front + "/" + segment)[..|front|] == front
  {
    var url := front + "/" + segment;
    forall k | |front| < k < |url| ensures url[k] != '/' {
      assert url[k] == segment[k - |front| - 1];
    }
    LastSlashIs(url, |front|);
    assert url[|front| + 1..] == segment;
  }

  lemma {:induction false} LastSlashIs(url: string, at: nat)
    requires at < |url| && url[at] == '/' && forall k :: at < k < |url| ==> url[k] != '/'
    ensures LastSlash(url) == Some(at)
  {
    if at < |url| - 1 {
      LastSlashIs(url[..|url| - 1], at);
    }
  }

  lemma {:induction false} NoSlashAtEnd(url: string)
    requires url == [] || url[|url| - 1] != '/'
    ensures WithoutSlashes(url) == url
  {
  }

  lemma {:induction false} SlashesTrimmed(url: string, n: nat)
    ensures WithoutSlashes(url + Slashes(n)) == WithoutSlashes(url)
  {
    if n == 0 {
      assert url + Slashes(0) == url;
    } else {
      SlashesTrimmed(url, n - 1);
      var longer := url + Slashes(n);
      assert longer[|longer| - 1] == '/' && longer[..|longer| - 1] == url + Slashes(n - 1);
    }
  }

  function Slashes(n: nat): string {
    if n == 0 then "" else Slashes(n - 1) + "/"
  }

  // ---- The algebra ----

  /** A versioned URL ends in a version segment and in no slash. */
  lemma {:induction false} VersionedEnds(baseUrl: string)
    ensures IsVersionSegment(LastSegment(Versioned(baseUrl)))
    ensures WithoutSlashes(Versioned(baseUrl)) == Versioned(baseUrl)
  {
    var trimmed := WithoutSlashes(baseUrl);
    if !IsVersionSegment(LastSegment(trimmed)) {
      VersionAdded(trimmed);
    } else {
      NoSlashAtEnd(trimmed);
    }
  }

  lemma {:induction false} VersionedIdempotent(baseUrl: string)
    ensures Versioned(Versioned(baseUrl)) == Versioned(baseUrl)
  {
    VersionedEnds(baseUrl);
  }

  /** Adding a version first does not change what is left when the version is taken off. */
  lemma {:induction false} UnversionedOfVersioned(baseUrl: string)
    ensures Unversioned(Versioned(baseUrl)) == Unversioned(baseUrl)
  {
    var trimmed := WithoutSlashes(baseUrl);
    VersionedEnds(baseUrl);
    if !IsVersionSegment(LastSegment(trimmed)) {
      VersionTakenOff(trimmed);
    }
  }

  lemma {:induction false} VersionTakenOff(url: string)
    ensures Unversioned(url + "/v1") == url
  {
    VersionAdded(url);
    SplitAtSegment(url, "v1");
    assert url + "/v1" == url + "/" + "v1";
  }

  /** Versioning the base beforehand makes no difference to any endpoint. */
  lemma {:induction false} EndpointOfVersioned(baseUrl: string, suffix: Option<string>)
    ensures Endpoint(Versioned(baseUrl), suffix) == Endpoint(baseUrl, suffix)
  {
    VersionedEnds(baseUrl);
    UnversionedOfVersioned(baseUrl);
    assert Versioned(WithoutSlashes(baseUrl)) == Versioned(baseUrl) && Unversioned(WithoutSlashes(baseUrl)) == Unversioned(baseUrl) by {
      NoSlashAtEnd(WithoutSlashes(baseUrl));
      OnlyTrimmedMatters(WithoutSlashes(baseUrl), baseUrl, suffix);
    }
    VersionedIdempotent(baseUrl);
  }

  lemma {:induction false} TrailingSlashesIgnored(baseUrl: string, n: nat, suffix: Option<string>)
    ensures Endpoint(baseUrl + Slashes(n), suffix) == Endpoint(baseUrl, suffix)
    ensures Versioned(baseUrl + Slashes(n)) == Versioned(baseUrl)
    ensures Unversioned(baseUrl + Slashes(n)) == Unversioned(baseUrl)
  {
    SlashesTrimmed(baseUrl, n);
    OnlyTrimmedMatters(baseUrl + Slashes(n), baseUrl, suffix);
  }

  lemma {:induction false} OnlyTrimmedMatters(one: string, other: string, suffix: Option<string>)
    requires WithoutSlashes(one) == WithoutSlashes(other)
    ensures Endpoint(one, suffix) == Endpoint(other, suffix)
    ensures Versioned(one) == Versioned(other) && Unversioned(one) == Unversioned(other)
  {
  }

  predicate EndsWithVersion(root: string, version: string) {
    IsNumberedVersion(version) && (root == "" || root[|root| - 1] == '/')
  }

  ghost predicate EndsNumbered(url: string) {
    exists root, version :: url == root + version + "/chat/completions" && EndsWithVersion(root, version)
  }

  lemma {:induction false} LastSegmentEnds(url: string) returns (root: string)
    ensures url == root + LastSegment(url) && (root == "" || root[|root| - 1] == '/')
  {
    var at := LastSlash(url);
    root := if at.Some? then url[..at.value + 1] else "";
  }

  lemma {:induction false} CompletedNumbered(url: string)
    requires IsNumberedVersion(LastSegment(url))
    ensures EndsNumbered(url + "/chat/completions")
  {
    var root := LastSegmentEnds(url);
    assert EndsWithVersion(root, LastSegment(url));
  }

  lemma {:induction false} VersionAdded(url: string)
    ensures LastSegment(url + "/v1") == "v1" && WithoutSlashes(url + "/v1") == url + "/v1"
    ensures IsNumberedVersion("v1")
  {
    SplitAtSegment(url, "v1");
    assert url + "/v1" == url + "/" + "v1";
    NoSlashAtEnd(url + "/v1");
  }

  /** Without a path suffix the endpoint is always /chat/completions right under a numbered
      version, never under beta and never without a version. */
  lemma {:induction false} EndpointIsNumbered(baseUrl: string, suffix: Option<string>)
    requires !HasSuffix(suffix)
    ensures EndsNumbered(Endpoint(baseUrl, suffix))
  {
    var base := WithoutSlashes(baseUrl);
    var versioned := Versioned(base);
    if IsBeta(LastSegment(versioned)) {
      VersionAdded(Unversioned(base));
      CompletedNumbered(Unversioned(base) + "/v1");
    } else {
      VersionedEnds(base);
      CompletedNumbered(versioned);
    }
  }

  // ---- Every endpoint, spelled out ----

  /** The word beta, or a v and at least one digit and nothing else; letters in any ASCII case. */
  lemma {:induction false} VersionSpelled(segment: string)
    ensures IsVersionSegment(segment) <==>
              || SameLetters(segment, "beta")
              || (|segment| > 1 && SameLetter(segment[0], 'v') && forall i :: 1 <= i < |segment| ==> segment[i] in "0123456789")
    ensures IsBeta(segment) <==> SameLetters(segment, "beta")
  {
    assert Lower("beta") == "beta";
    LowerTells(segment, "beta");
    if |segment| > 1 {
      var digits := segment[1..];
      assert forall i :: 1 <= i < |segment| ==> segment[i] == digits[i - 1];
      assert forall i :: 0 <= i < |digits| ==> digits[i] == segment[i + 1];
    }
  }

  lemma {:induction false} VersionHasNoSlash(segment: string)
    requires IsVersionSegment(segment)
    ensures '/' !in segment && segment != ""
  {
    if IsBeta(segment) {
      forall i | 0 <= i < |segment| ensures segment[i] != '/' { assert LowerChar(segment[i]) == "beta"[i]; }
    } else {
      assert forall i :: 1 <= i < |segment| ==> segment[i] == segment[1..][i - 1];
    }
  }

  lemma {:induction false} VersionAtEnd(root: string, version: string)
    requires IsVersionSegment(version)
    ensures var base := root + "/" + version;
            && WithoutSlashes(base) == base && LastSegment(base) == version && LastSlash(base) == Some(|root|)
            && Unversioned(base) == root && Versioned(base) == base
  {
    VersionHasNoSlash(version);
    SplitAtSegment(root, version);
    var base := root + "/" + version;
    assert base[|base| - 1] == version[|version| - 1];
    NoSlashAtEnd(base);
  }

  lemma {:induction false} PathKept(n: nat, path: string)
    requires path == "" || path[0] != '/'
    ensures TrimStartChar(Slashes(n) + path, '/') == path
  {
    if n == 0 {
      assert Slashes(0) + path == path;
    } else {
      SlashInFront(n);
      assert (Slashes(n) + path)[1..] == Slashes(n - 1) + path && (Slashes(n) + path)[0] == '/';
      PathKept(n - 1, path);
    }
  }

  lemma {:induction false} SlashInFront(n: nat)
    requires n > 0
    ensures Slashes(n) != "" && Slashes(n)[0] == '/' && Slashes(n)[1..] == Slashes(n - 1)
  {
    if n == 1 {
      assert Slashes(0) + "/" == "/";
    } else {
      SlashInFront(n - 1);
      assert Slashes(n)[1..] == Slashes(n - 1)[1..] + "/";
    }
  }

  /** A path suffix goes right under the root: a version at the end of the base makes way, anything
      else stays, and slashes where they meet come to one. */
  lemma {:induction false} EndpointWithSuffix(root: string, version: string, m: nat, n: nat, path: string)
    requires (path == "" || path[0] != '/') && !Blank(Slashes(n) + path)
    ensures IsVersionSegment(version) ==>
              Endpoint(root + "/" + version + Slashes(m), Some(Slashes(n) + path)) == root + "/" + path
    ensures WithoutSlashes(root) == root && !IsVersionSegment(LastSegment(root)) ==>
              Endpoint(root + Slashes(m), Some(Slashes(n) + path)) == root + "/" + path
  {
    if IsVersionSegment(version) {
      VersionAtEnd(root, version);
      SuffixOn(root + "/" + version, m, n, path);
    }
    SuffixOn(root, m, n, path);
  }

  lemma {:induction false} SuffixOn(base: string, m: nat, n: nat, path: string)
    requires (path == "" || path[0] != '/') && !Blank(Slashes(n) + path)
    ensures Endpoint(base + Slashes(m), Some(Slashes(n) + path)) == Unversioned(WithoutSlashes(base)) + "/" + path
  {
    BlankIsTrimmedAway(Slashes(n) + path);
    PathKept(n, path);
    SlashesTrimmed(base, m);
  }

  /** Without a suffix a numbered version stays, beta is replaced by v1, and v1 is added to what has
      no version; a blank suffix counts as none. */
  lemma {:induction false} EndpointWithoutSuffix(root: string, version: string, m: nat, suffix: Option<string>)
    requires suffix.None? || Blank(suffix.value)
    ensures IsVersionSegment(version) ==>
              Endpoint(root + "/" + version + Slashes(m), suffix)
                == root + "/" + (if SameLetters(version, "beta") then "v1" else version) + "/chat/completions"
    ensures WithoutSlashes(root) == root && !IsVersionSegment(LastSegment(root)) ==>
              Endpoint(root + Slashes(m), suffix) == root + "/v1" + "/chat/completions"
  {
    if suffix.Some? { BlankIsTrimmedAway(suffix.value); }
    if IsVersionSegment(version) {
      var base := root + "/" + version;
      VersionSpelled(version);
      VersionAtEnd(root, version);
      SlashesTrimmed(base, m);
      if IsBeta(version) {
        VersionAdded(root);
        assert root + "/v1" == root + "/" + "v1";
      }
    }
    SlashesTrimmed(root, m);
    VersionAdded(root);
    VersionSpelled("v1");
  }

  /** upstream_url: one local, replaced when its last segment is beta. */
  method BuildUrl(baseUrl: string, suffix: Option<string>) returns (url: string)
    ensures url == Endpoint(baseUrl, suffix)
    ensures !HasSuffix(suffix) ==> EndsNumbered(url)
  {
    var base := WithoutSlashes(baseUrl);
    if suffix.Some? && Trim(suffix.value) != "" {
      return Unversioned(base) + "/" + TrimStartChar(suffix.value, '/');
    }
    var versioned := Versioned(base);
    if IsBeta(LastSegment(versioned)) {
      versioned := Unversioned(base) + "/v1";
    }
    url := WithoutSlashes(versioned) + "/chat/completions";
    EndpointIsNumbered(baseUrl, suffix);
  }
}
