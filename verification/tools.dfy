/**
 * The control point's text helpers: joining a base URL with a relative one,
 * turning camel case into snake case, and deciding whether two URNs name the same
 * device or service type at the same major version.
 */
module Tools {
  import opened RubyText

  // ---------------------------------------------------------------------------
  // build_url

  /** `build_url(base, rest)`: exactly one '/' joins `base` and `rest`. */
  function BuildUrl(base: string, rest: string): (url: string)
    ensures StartsWith(url, base)
    ensures !EndsWith(base, "/") ==> |url| > |base| && url[|base|] == '/'
    ensures EndsWith(url, if StartsWith(rest, "/") then rest[1..] else rest)
    ensures |url| == |base| + |rest|
                     + (if EndsWith(base, "/") then 0 else 1)
                     - (if StartsWith(rest, "/") then 1 else 0)
    ensures EndsWith(base, "/") && !StartsWith(rest, "/") ==> url == base + rest
  {
    var prefix := base + (if EndsWith(base, "/") then "" else "/");
    prefix + (if StartsWith(rest, "/") then rest[1..] else rest)
  }

  /** Whether the caller already wrote the joining slashes makes no difference. */
  lemma BuildUrlSlashInsensitive(base: string, rest: string)
    requires !EndsWith(base, "/") && !StartsWith(rest, "/")
    ensures BuildUrl(base, rest) == base + "/" + rest
    ensures BuildUrl(base + "/", rest) == base + "/" + rest
    ensures BuildUrl(base, "/" + rest) == base + "/" + rest
    ensures BuildUrl(base + "/", "/" + rest) == base + "/" + rest
  {
    assert EndsWith(base + "/", "/");
    assert StartsWith("/" + rest, "/") && ("/" + rest)[1..] == rest;
  }

  // ---------------------------------------------------------------------------
  // snake_case

  /** The two characters that `([^A-Z_])([A-Z])` matches. */
  predicate IsBoundary(a: char, b: char) { !IsUpper(a) && a != '_' && IsUpper(b) }

  /**
   * `str.gsub(/([^A-Z_])([A-Z])/, '\1_\2')`: a left-to-right scan that rewrites each
   * non-overlapping match `ab` into `a_b`.
   */
  function InsertUnderscores(s: string): string
    decreases |s|
  {
    if |s| >= 2 && IsBoundary(s[0], s[1]) then [s[0], '_', s[1]] + InsertUnderscores(s[2..])
    else if s == [] then []
    else [s[0]] + InsertUnderscores(s[1..])
  }

  /** `snake_case(str)`: the rewrite above, then `downcase` (its `|| str.downcase` never runs). */
  function SnakeCase(s: string): (r: string)
    ensures NoUpper(r)
  {
    Downcase(InsertUnderscores(s))
  }

  /** Reference definition: an underscore between EVERY adjacent pair that forms a boundary. */
  function UnderscoreAtBoundaries(s: string): string
    decreases |s|
  {
    if |s| < 2 then s
    else [s[0]] + (if IsBoundary(s[0], s[1]) then "_" else "") + UnderscoreAtBoundaries(s[1..])
  }

  /**
   * Matches of the gsub cannot overlap (the second character of a match is a capital,
   * which never starts one), so the scan puts an underscore at every boundary.
   */
  lemma {:induction false} InsertUnderscoresAtEveryBoundary(s: string)
    ensures InsertUnderscores(s) == UnderscoreAtBoundaries(s)
    decreases |s|
  {
    if |s| >= 2 && IsBoundary(s[0], s[1]) {
      InsertUnderscoresAtEveryBoundary(s[2..]);
      var t := s[1..];
      assert t[1..] == s[2..];
      if |t| >= 2 { assert !IsBoundary(t[0], t[1]); }
      assert UnderscoreAtBoundaries(t) == [t[0]] + UnderscoreAtBoundaries(s[2..]);
    } else if |s| >= 2 {
      InsertUnderscoresAtEveryBoundary(s[1..]);
    } else if |s| == 1 {
      assert InsertUnderscores(s) == [s[0]] + InsertUnderscores([]);
    }
  }

  /** Text with no capital letter is a fixed point of the rewrite. */
  lemma {:induction false} InsertUnderscoresNoUpper(s: string)
    requires NoUpper(s)
    ensures InsertUnderscores(s) == s
    decreases |s|
  {
    if s != [] {
      InsertUnderscoresNoUpper(s[1..]);
    }
  }

  lemma DowncaseNoUpperIdentity(s: string)
    requires NoUpper(s)
    ensures Downcase(s) == s
  {
  }

  /** Converting twice is converting once. */
  lemma SnakeCaseIdempotent(s: string)
    ensures SnakeCase(SnakeCase(s)) == SnakeCase(s)
  {
    var t := SnakeCase(s);
    InsertUnderscoresNoUpper(t);
    DowncaseNoUpperIdentity(t);
  }

  /** `s` without its underscores. */
  function WithoutUnderscores(s: string): (r: string)
    ensures forall i :: 0 <= i < |r| ==> r[i] != '_'
  {
    if s == [] then []
    else (if s[0] == '_' then [] else [s[0]]) + WithoutUnderscores(s[1..])
  }

  lemma {:induction false} WithoutUnderscoresAppend(a: string, b: string)
    ensures WithoutUnderscores(a + b) == WithoutUnderscores(a) + WithoutUnderscores(b)
    decreases |a|
  {
    if a != [] {
      assert (a + b)[1..] == a[1..] + b;
      WithoutUnderscoresAppend(a[1..], b);
      var h := if a[0] == '_' then [] else [a[0]];
      calc {
        WithoutUnderscores(a + b);
        h + WithoutUnderscores(a[1..] + b);
        h + (WithoutUnderscores(a[1..]) + WithoutUnderscores(b));
        (h + WithoutUnderscores(a[1..])) + WithoutUnderscores(b);
      }
    } else {
      assert a + b == b;
    }
  }

  lemma {:induction false} InsertUnderscoresOnlyAddsUnderscores(s: string)
    ensures WithoutUnderscores(InsertUnderscores(s)) == WithoutUnderscores(s)
    decreases |s|
  {
    if |s| >= 2 && IsBoundary(s[0], s[1]) {
      InsertUnderscoresOnlyAddsUnderscores(s[2..]);
      WithoutUnderscoresAppend([s[0], '_', s[1]], InsertUnderscores(s[2..]));
      var m := [s[0], '_', s[1]];
      assert m[1..] == ['_', s[1]] && m[1..][1..] == [s[1]] && [s[1]][1..] == [];
      assert WithoutUnderscores([s[1]]) == [s[1]];
      assert WithoutUnderscores(m[1..]) == [s[1]];
      assert WithoutUnderscores(m) == [s[0], s[1]];
      assert s[1..][1..] == s[2..];
      assert WithoutUnderscores(s) == [s[0]] + ([s[1]] + WithoutUnderscores(s[2..]));
    } else if s != [] {
      InsertUnderscoresOnlyAddsUnderscores(s[1..]);
      WithoutUnderscoresAppend([s[0]], InsertUnderscores(s[1..]));
    }
  }

  lemma {:induction false} DowncaseKeepsUnderscores(s: string)
    ensures WithoutUnderscores(Downcase(s)) == Downcase(WithoutUnderscores(s))
    decreases |s|
  {
    if s != [] {
      DowncaseKeepsUnderscores(s[1..]);
      assert Downcase(s)[1..] == Downcase(s[1..]);
      assert (s[0] == '_') == (DowncaseChar(s[0]) == '_');
      if s[0] != '_' {
        assert Downcase([s[0]] + WithoutUnderscores(s[1..]))
            == [DowncaseChar(s[0])] + Downcase(WithoutUnderscores(s[1..]));
      }
    }
  }

  /** The only characters snake_case adds are underscores: without them, it is `downcase`. */
  lemma SnakeCaseOnlyInsertsUnderscores(s: string)
    ensures WithoutUnderscores(SnakeCase(s)) == WithoutUnderscores(Downcase(s))
  {
    DowncaseKeepsUnderscores(InsertUnderscores(s));
    InsertUnderscoresOnlyAddsUnderscores(s);
    DowncaseKeepsUnderscores(s);
  }

  lemma IconListUnderscores()
    ensures InsertUnderscores("iconList") == "icon_List"
  {
    assert InsertUnderscores("List") == "List" by {
      assert InsertUnderscores("") == "";
      assert InsertUnderscores("t") == "t";
      assert InsertUnderscores("st") == "st";
      assert InsertUnderscores("ist") == "ist";
    }
    assert InsertUnderscores("nList") == "n_List";
    assert InsertUnderscores("onList") == "on_List";
    assert InsertUnderscores("conList") == "con_List";
  }

  lemma UbUrlUnderscores()
    ensures InsertUnderscores("ubURL") == "ub_URL"
  {
    assert InsertUnderscores("URL") == "URL" by {
      assert InsertUnderscores("") == "";
      assert InsertUnderscores("L") == "L";
      assert InsertUnderscores("RL") == "RL";
    }
    assert InsertUnderscores("bURL") == "b_URL";
  }

  lemma TSubUrlUnderscores()
    ensures InsertUnderscores("tSubURL") == "t_Sub_URL"
  {
    UbUrlUnderscores();
  }

  lemma NtSubUrlUnderscores()
    ensures InsertUnderscores("ntSubURL") == "nt_Sub_URL"
  {
    TSubUrlUnderscores();
  }

  lemma EntSubUrlUnderscores()
    ensures InsertUnderscores("entSubURL") == "ent_Sub_URL"
  {
    NtSubUrlUnderscores();
  }

  lemma VentSubUrlUnderscores()
    ensures InsertUnderscores("ventSubURL") == "vent_Sub_URL"
  {
    EntSubUrlUnderscores();
  }

  lemma EventSubUrlUnderscores()
    ensures InsertUnderscores("eventSubURL") == "event_Sub_URL"
  {
    VentSubUrlUnderscores();
  }

  lemma DowncaseAppend(a: string, b: string)
    ensures Downcase(a + b) == Downcase(a) + Downcase(b)
  {
    assert forall i | 0 <= i < |a + b| :: Downcase(a + b)[i] == (Downcase(a) + Downcase(b))[i];
  }

  lemma EventSubUrlDowncase()
    ensures Downcase("event_Sub_URL") == "event_sub_url"
  {
    assert "event_Sub_URL" == "event_Sub_" + "URL";
    DowncaseAppend("event_Sub_", "URL");
    assert Downcase("event_Sub_") == "event_sub_";
    assert Downcase("URL") == "url";
  }

  /** The two examples in the documentation of `snake_case`. */
  lemma SnakeCaseIconList()
    ensures SnakeCase("iconList") == "icon_list"
  {
    IconListUnderscores();
  }

  lemma SnakeCaseEventSubUrl()
    ensures SnakeCase("eventSubURL") == "event_sub_url"
  {
    EventSubUrlUnderscores();
    EventSubUrlDowncase();
  }

  // ---------------------------------------------------------------------------
  // urn_are_equivalent?

  /** The four captures of `(\w+):(\w+):(\w+):([\d-]+)`. */
  datatype UrnCaptures = UrnCaptures(domain: string, kind: string, typeName: string, version: string)

  /** A single leading "urn:" is removed (`urn[0..3] == 'urn:'`). */
  function StripUrnPrefix(u: string): string {
    if |u| >= 4 && u[..4] == "urn:" then u[4..] else u
  }

  /**
   * The pattern tried at position `s`. Each `\w+` must be followed by ':', so only the
   * longest run can be kept by the backtracking; `[\d-]+` takes its longest run.
   */
  function UrnMatchAt(u: string, s: nat): Option<UrnCaptures>
    requires s <= |u|
  {
    var e1 := RunEnd(u, s, Word);
    if !(s < e1 < |u| && u[e1] == ':') then None
    else
      var e2 := RunEnd(u, e1 + 1, Word);
      if !(e1 + 1 < e2 < |u| && u[e2] == ':') then None
      else
        var e3 := RunEnd(u, e2 + 1, Word);
        if !(e2 + 1 < e3 < |u| && u[e3] == ':') then None
        else
          var e4 := RunEnd(u, e3 + 1, DigitDash);
          if e4 == e3 + 1 then None
          else Some(UrnCaptures(u[s..e1], u[e1 + 1..e2], u[e2 + 1..e3], u[e3 + 1..e4]))
  }

  /** `String#match`: the leftmost position where the pattern matches. */
  function UrnMatch(u: string, s: nat): Option<UrnCaptures>
    requires s <= |u|
    decreases |u| - s
  {
    match UrnMatchAt(u, s)
    case Some(m) => Some(m)
    case None => if s < |u| then UrnMatch(u, s + 1) else None
  }

  /**
   * `version.split(/-/).first`: the text before the first '-'; nil (None) when the
   * version is made of dashes only, because `split` drops trailing empty fields.
   */
  function MajorVersion(v: string): (r: Option<string>)
    ensures r.Some? ==> forall i :: 0 <= i < |r.value| ==> r.value[i] != '-'
    ensures r.Some? ==> StartsWith(v, r.value) && (|r.value| == |v| || v[|r.value|] == '-')
    ensures r.None? <==> forall i :: 0 <= i < |v| ==> v[i] == '-'
  {
    if forall i :: 0 <= i < |v| ==> v[i] == '-' then None
    else
      var k := DashFree(v, 0);
      Some(v[..k])
  }

  function DashFree(v: string, i: nat): (k: nat)
    requires i <= |v|
    requires forall t :: 0 <= t < i ==> v[t] != '-'
    ensures i <= k <= |v| && (k == |v| || v[k] == '-')
    ensures forall t :: 0 <= t < k ==> v[t] != '-'
    decreases |v| - i
  {
    if i < |v| && v[i] != '-' then DashFree(v, i + 1) else i
  }

  lemma {:induction false} DashFreeIs(v: string, i: nat, k: nat)
    requires i <= k <= |v|
    requires forall t :: 0 <= t < k ==> v[t] != '-'
    requires k == |v| || v[k] == '-'
    ensures DashFree(v, i) == k
    decreases k - i
  {
    if i < k { DashFreeIs(v, i + 1, k); }
  }

  /** The major version is the text before the first '-': "1-5" and "1" share major "1". */
  lemma MajorVersionOf(major: string, rest: string)
    requires major != [] && forall t :: 0 <= t < |major| ==> major[t] != '-'
    requires rest == [] || rest[0] == '-'
    ensures MajorVersion(major + rest) == Some(major)
  {
    var v := major + rest;
    assert v[0] == major[0] != '-';
    DashFreeIs(v, 0, |major|);
    assert v[..|major|] == major;
  }

  /**
   * `urn_are_equivalent?(urn1, urn2)`; None is the NoMethodError raised when either
   * text does not match the pattern (`m1[1]` on nil).
   */
  function UrnAreEquivalent(urn1: string, urn2: string): (r: Option<bool>)
    ensures r.Some? <==> UrnMatch(StripUrnPrefix(urn1), 0).Some? && UrnMatch(StripUrnPrefix(urn2), 0).Some?
  {
    var m1 := UrnMatch(StripUrnPrefix(urn1), 0);
    var m2 := UrnMatch(StripUrnPrefix(urn2), 0);
    if m1.None? || m2.None? then None
    else
      Some(m1.value.domain == m2.value.domain
           && m1.value.kind == m2.value.kind
           && m1.value.typeName == m2.value.typeName
           && MajorVersion(m1.value.version) == MajorVersion(m2.value.version))
  }

  lemma UrnAreEquivalentSymmetric(urn1: string, urn2: string)
    ensures UrnAreEquivalent(urn1, urn2) == UrnAreEquivalent(urn2, urn1)
  {
  }

  // The shape of a URN: an optional "urn:", a domain, a kind, a type name and a version.

  function UrnBody(domain: string, kind: string, typeName: string, version: string): string {
    domain + ":" + kind + ":" + typeName + ":" + version
  }

  function UrnText(prefix: string, domain: string, kind: string, typeName: string, version: string): string {
    prefix + UrnBody(domain, kind, typeName, version)
  }

  /** Start of the longest suffix of `d` made of word characters. */
  function LastRunStart(d: string): (w: nat)
    ensures w <= |d| && AllIn(d, w, |d|, Word)
    ensures w == 0 || !IsWordChar(d[w - 1])
  {
    if d == [] || !IsWordChar(d[|d| - 1]) then |d|
    else LastRunStart(d[..|d| - 1])
  }

  /** The part of a domain that the pattern captures: "schemas-upnp-org" gives "org". */
  function LastWordRun(d: string): string {
    d[LastRunStart(d)..]
  }

  predicate WellFormedUrn(prefix: string, domain: string, kind: string, typeName: string, version: string) {
    && (prefix == "urn:" || (prefix == "" && domain != "urn"))
    && domain != [] && IsWordChar(domain[|domain| - 1])
    && (forall i :: 0 <= i < |domain| ==> domain[i] != ':')
    && kind != [] && AllIn(kind, 0, |kind|, Word)
    && typeName != [] && AllIn(typeName, 0, |typeName|, Word)
    && version != [] && AllIn(version, 0, |version|, DigitDash)
  }

  /** Skipping positions where the pattern fails does not change the leftmost match. */
  lemma {:induction false} UrnMatchSkips(u: string, s: nat, w: nat)
    requires s <= w <= |u|
    requires forall x :: s <= x < w ==> UrnMatchAt(u, x).None?
    ensures UrnMatch(u, s) == UrnMatch(u, w)
    decreases w - s
  {
    if s < w { UrnMatchSkips(u, s + 1, w); }
  }

  /** Where the parts of a URN sit in its text once any "urn:" is gone. */
  lemma UrnLayout(domain: string, kind: string, typeName: string, version: string)
    ensures var u := UrnBody(domain, kind, typeName, version);
            var d, k, t := |domain|, |domain| + 1 + |kind|, |domain| + 1 + |kind| + 1 + |typeName|;
            && t < |u| && u[..d] == domain && u[d] == ':' && u[d + 1..k] == kind && u[k] == ':'
            && u[k + 1..t] == typeName && u[t] == ':' && u[t + 1..] == version
  {
    var a := domain + ":";
    var b := a + kind + ":";
    var c := b + typeName + ":";
    var u := c + version;
    assert u == UrnBody(domain, kind, typeName, version);
    assert u[..|c|] == c && u[|c|..] == version;
    assert c[..|b|] == b && c[|b|..|c| - 1] == typeName;
    assert b[..|a|] == a && b[|a|..|b| - 1] == kind;
    assert a[..|domain|] == domain;
  }

  /** A text whose first field has no ':' and is not "urn" does not start with "urn:". */
  lemma NoUrnPrefix(u: string, domain: string)
    requires |domain| < |u| && u[..|domain|] == domain && u[|domain|] == ':'
    requires forall i :: 0 <= i < |domain| ==> domain[i] != ':'
    requires domain != "urn"
    ensures !(|u| >= 4 && u[..4] == "urn:")
  {
    if |domain| >= 4 {
      assert u[3] == domain[3] != ':';
    } else if |domain| == 3 {
      assert u[..3] == domain;
    } else if |u| >= 4 {
      assert u[..4][|domain|] == ':';
    }
  }

  lemma StripUrnPrefixOfText(prefix: string, domain: string, kind: string, typeName: string, version: string)
    requires WellFormedUrn(prefix, domain, kind, typeName, version)
    ensures StripUrnPrefix(UrnText(prefix, domain, kind, typeName, version))
         == UrnBody(domain, kind, typeName, version)
  {
    var u := UrnBody(domain, kind, typeName, version);
    var text := UrnText(prefix, domain, kind, typeName, version);
    assert text == prefix + u;
    if prefix == "urn:" {
      assert text[..4] == "urn:" && text[4..] == u;
    } else {
      UrnLayout(domain, kind, typeName, version);
      NoUrnPrefix(u, domain);
    }
  }

  /** A start before the domain's last word run fails: its run stops at a non-word, non-':' character. */
  lemma UrnMatchBeforeLastRun(u: string, domain: string, x: nat)
    requires |domain| < |u| && u[..|domain|] == domain
    requires forall i :: 0 <= i < |domain| ==> domain[i] != ':'
    requires x < LastRunStart(domain)
    ensures UrnMatchAt(u, x).None?
  {
    var w := LastRunStart(domain);
    var e1 := RunEnd(u, x, Word);
    assert u[w - 1] == domain[w - 1];
    assert e1 < w;
    assert u[e1] == domain[e1];
  }

  /** A field copied into the text keeps its characters' class. */
  lemma AllInSlice(u: string, i: nat, j: nat, field: string, k: CharClass)
    requires i <= j <= |u| && u[i..j] == field
    requires AllIn(field, 0, |field|, k)
    ensures AllIn(u, i, j, k)
  {
    forall t | i <= t < j ensures InClass(u[t], k) { assert u[t] == field[t - i]; }
  }

  lemma UrnMatchAtFields(u: string, w: nat, d: nat, k: nat, t: nat)
    requires w < d < k < t < |u| - 1 && k > d + 1 && t > k + 1
    requires u[d] == ':' && u[k] == ':' && u[t] == ':'
    requires AllIn(u, w, d, Word) && AllIn(u, d + 1, k, Word) && AllIn(u, k + 1, t, Word)
    requires AllIn(u, t + 1, |u|, DigitDash)
    ensures UrnMatchAt(u, w) == Some(UrnCaptures(u[w..d], u[d + 1..k], u[k + 1..t], u[t + 1..]))
  {
    RunEndIs(u, w, d, Word);
    RunEndIs(u, d + 1, k, Word);
    RunEndIs(u, k + 1, t, Word);
    RunEndIs(u, t + 1, |u|, DigitDash);
    assert u[t + 1..|u|] == u[t + 1..];
  }

  /** The leftmost match in a URN body starts at the domain's last word run. */
  lemma UrnBodyMatchStart(domain: string, kind: string, typeName: string, version: string)
    requires WellFormedUrn("urn:", domain, kind, typeName, version)
    ensures LastRunStart(domain) <= |UrnBody(domain, kind, typeName, version)|
    ensures UrnMatch(UrnBody(domain, kind, typeName, version), 0)
         == UrnMatch(UrnBody(domain, kind, typeName, version), LastRunStart(domain))
  {
    var u := UrnBody(domain, kind, typeName, version);
    UrnLayout(domain, kind, typeName, version);
    var w := LastRunStart(domain);
    forall x | 0 <= x < w
      ensures UrnMatchAt(u, x).None?
    {
      UrnMatchBeforeLastRun(u, domain, x);
    }
    UrnMatchSkips(u, 0, w);
  }

  /** At the start of the domain's last word run, the four groups are the four parts. */
  lemma UrnBodyMatchAt(domain: string, kind: string, typeName: string, version: string)
    requires WellFormedUrn("urn:", domain, kind, typeName, version)
    ensures LastRunStart(domain) <= |UrnBody(domain, kind, typeName, version)|
    ensures UrnMatchAt(UrnBody(domain, kind, typeName, version), LastRunStart(domain))
         == Some(UrnCaptures(LastWordRun(domain), kind, typeName, version))
  {
    UrnLayout(domain, kind, typeName, version);
    UrnFieldsMatch(UrnBody(domain, kind, typeName, version), domain, kind, typeName, version, LastRunStart(domain));
  }

  /** The match at `w` in any text laid out as `domain:kind:typeName:version`, `w` inside the domain's last word run. */
  lemma UrnFieldsMatch(u: string, domain: string, kind: string, typeName: string, version: string, w: nat)
    requires w < |domain| && AllIn(domain, w, |domain|, Word)
    requires kind != [] && AllIn(kind, 0, |kind|, Word)
    requires typeName != [] && AllIn(typeName, 0, |typeName|, Word)
    requires version != [] && AllIn(version, 0, |version|, DigitDash)
    requires var d, k, t := |domain|, |domain| + 1 + |kind|, |domain| + 1 + |kind| + 1 + |typeName|;
             && t < |u| && u[..d] == domain && u[d] == ':' && u[d + 1..k] == kind && u[k] == ':'
             && u[k + 1..t] == typeName && u[t] == ':' && u[t + 1..] == version
    ensures UrnMatchAt(u, w) == Some(UrnCaptures(domain[w..], kind, typeName, version))
  {
    var d, k, t := |domain|, |domain| + 1 + |kind|, |domain| + 1 + |kind| + 1 + |typeName|;
    forall x | w <= x < d ensures InClass(u[x], Word) {
      assert u[x] == u[..d][x];
    }
    assert u[w..d] == domain[w..] by {
      assert u[w..d] == u[..d][w..];
    }
    AllInSlice(u, d + 1, k, kind, Word);
    AllInSlice(u, k + 1, t, typeName, Word);
    assert u[t + 1..|u|] == version;
    AllInSlice(u, t + 1, |u|, version, DigitDash);
    UrnMatchAtFields(u, w, d, k, t);
    assert UrnCaptures(u[w..d], u[d + 1..k], u[k + 1..t], u[t + 1..]) == UrnCaptures(domain[w..], kind, typeName, version);
  }

  /** What the pattern captures in a well-formed URN. */
  lemma UrnCapturesOf(prefix: string, domain: string, kind: string, typeName: string, version: string)
    requires WellFormedUrn(prefix, domain, kind, typeName, version)
    ensures UrnMatch(StripUrnPrefix(UrnText(prefix, domain, kind, typeName, version)), 0)
         == Some(UrnCaptures(LastWordRun(domain), kind, typeName, version))
  {
    StripUrnPrefixOfText(prefix, domain, kind, typeName, version);
    assert WellFormedUrn("urn:", domain, kind, typeName, version);
    UrnBodyMatchStart(domain, kind, typeName, version);
    UrnBodyMatchAt(domain, kind, typeName, version);
  }

  /**
   * Two well-formed URNs are equivalent exactly when the captured domain segment, the
   * kind, the type name and the major version agree; the minor version is ignored.
   */
  lemma UrnEquivalence(p1: string, d1: string, k1: string, t1: string, v1: string,
                       p2: string, d2: string, k2: string, t2: string, v2: string)
    requires WellFormedUrn(p1, d1, k1, t1, v1) && WellFormedUrn(p2, d2, k2, t2, v2)
    ensures UrnAreEquivalent(UrnText(p1, d1, k1, t1, v1), UrnText(p2, d2, k2, t2, v2))
         == Some(LastWordRun(d1) == LastWordRun(d2) && k1 == k2 && t1 == t2
                 && MajorVersion(v1) == MajorVersion(v2))
  {
    UrnCapturesOf(p1, d1, k1, t1, v1);
    UrnCapturesOf(p2, d2, k2, t2, v2);
  }

  /** The last word run of `p + q`, when `q` is all word characters and `p` does not end in one. */
  lemma {:induction false} LastWordRunOf(p: string, q: string)
    requires AllIn(q, 0, |q|, Word)
    requires p == [] || !IsWordChar(p[|p| - 1])
    ensures LastWordRun(p + q) == q
    decreases |q|
  {
    if q == [] {
      assert p + q == p;
    } else {
      var q' := q[..|q| - 1];
      assert (p + q)[..|p + q| - 1] == p + q';
      LastWordRunOf(p, q');
      assert LastRunStart(p + q') == |p|;
    }
  }

  /** The standard domain "schemas-upnp-org" is captured as "org". */
  lemma StandardDomain()
    ensures LastWordRun("schemas-upnp-org") == "org"
  {
    assert "schemas-upnp-org" == "schemas-upnp-" + "org";
    LastWordRunOf("schemas-upnp-", "org");
  }

  /** Versions that share their major part are equivalent whatever follows it (`Basic:1` and `Basic:1-5`). */
  lemma MinorVersionIgnored(p1: string, p2: string, domain: string, kind: string, typeName: string,
                            major: string, rest1: string, rest2: string)
    requires WellFormedUrn(p1, domain, kind, typeName, major + rest1)
    requires WellFormedUrn(p2, domain, kind, typeName, major + rest2)
    requires major != [] && forall t :: 0 <= t < |major| ==> major[t] != '-'
    requires (rest1 == [] || rest1[0] == '-') && (rest2 == [] || rest2[0] == '-')
    ensures UrnAreEquivalent(UrnText(p1, domain, kind, typeName, major + rest1),
                             UrnText(p2, domain, kind, typeName, major + rest2)) == Some(true)
  {
    UrnEquivalence(p1, domain, kind, typeName, major + rest1, p2, domain, kind, typeName, major + rest2);
    MajorVersionOf(major, rest1);
    MajorVersionOf(major, rest2);
  }

  /** URNs whose major versions differ are not equivalent (`Basic:1` and `Basic:2`). */
  lemma MajorVersionsDiffer(p1: string, d1: string, k1: string, t1: string, major1: string, rest1: string,
                            p2: string, d2: string, k2: string, t2: string, major2: string, rest2: string)
    requires WellFormedUrn(p1, d1, k1, t1, major1 + rest1) && WellFormedUrn(p2, d2, k2, t2, major2 + rest2)
    requires major1 != [] && forall t :: 0 <= t < |major1| ==> major1[t] != '-'
    requires major2 != [] && forall t :: 0 <= t < |major2| ==> major2[t] != '-'
    requires (rest1 == [] || rest1[0] == '-') && (rest2 == [] || rest2[0] == '-')
    requires major1 != major2
    ensures UrnAreEquivalent(UrnText(p1, d1, k1, t1, major1 + rest1),
                             UrnText(p2, d2, k2, t2, major2 + rest2)) == Some(false)
  {
    UrnEquivalence(p1, d1, k1, t1, major1 + rest1, p2, d2, k2, t2, major2 + rest2);
    MajorVersionOf(major1, rest1);
    MajorVersionOf(major2, rest2);
  }
}
