/**
 * The `BuildUrl` mixin: a second copy of the URL-joining helper, used by the
 * control point's remote device and remote service.
 */
module BuildUrlMixin {
  import opened RubyText
  import Tools

  /** `build_url(base, rest)`: exactly one '/' joins `base` and `rest`. */
  function BuildUrl(base: string, rest: string): (url: string)
    ensures StartsWith(url, base)
    ensures EndsWith(base, "/") ==> url[|base|..] == (if StartsWith(rest, "/") then rest[1..] else rest)
    ensures !EndsWith(base, "/") ==> url[|base|..] == "/" + (if StartsWith(rest, "/") then rest[1..] else rest)
  {
    var url := base + (if EndsWith(base, "/") then "" else "/");
    url + (if StartsWith(rest, "/") then rest[1..] else rest)
  }

  /** The mixin's copy and the helper module's copy agree on every input. */
  lemma AgreesWithTools(base: string, rest: string)
    ensures BuildUrl(base, rest) == Tools.BuildUrl(base, rest)
  {
    var url := BuildUrl(base, rest);
    var tail := if StartsWith(rest, "/") then rest[1..] else rest;
    var other := Tools.BuildUrl(base, rest);
    assert url == url[..|base|] + url[|base|..];
    assert other[..|base|] == base;
    assert EndsWith(other, tail);
    if EndsWith(base, "/") {
      assert |other| == |base| + |tail|;
      assert other[|base|..] == tail;
    } else {
      assert |other| == |base| + 1 + |tail|;
      assert other[|base|..] == "/" + tail;
    }
    assert other == other[..|base|] + other[|base|..];
  }
}
