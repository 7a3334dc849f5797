/** Derivation of the fully-qualified target reference of a configured image
    (`ImageConfig.get_target_image` in scripts/sync.py). */
module ImageRefs {
  import opened Wrappers

  /** One configured sync unit: the source reference, an optional override of the
      target's base name, and an optional platform passed to the pull. */
  datatype ImageConfig = ImageConfig(source: string, target: Option<string>, platform: Option<string>)

  /** Joins non-empty `parts` with `sep` between consecutive parts (Python's `sep.join`). */
  function Join(parts: seq<string>, sep: char): string
    requires |parts| > 0
    decreases |parts|
  {
    if |parts| == 1 then parts[0]
    else Join(parts[..|parts| - 1], sep) + [sep] + parts[|parts| - 1]
  }

  /** Python's `s.split(sep)` for a one-character separator: never empty, keeps the
      empty pieces between adjacent separators and at either end, and no piece
      contains the separator. Joining the pieces back gives `s`. */
  function Split(s: string, sep: char): (parts: seq<string>)
    ensures |parts| > 0
    ensures forall i :: 0 <= i < |parts| ==> sep !in parts[i]
    ensures Join(parts, sep) == s
    decreases |s|
  {
    if |s| == 0 then [""]
    else
      var init := Split(s[..|s| - 1], sep);
      var c := s[|s| - 1];
      assert s == s[..|s| - 1] + [c];
      if c == sep then init + [""]
      else
        var last := init[|init| - 1] + [c];
        var parts := init[..|init| - 1] + [last];
        assert parts[..|parts| - 1] == init[..|init| - 1];
        assert Join(parts, sep) == s by {
          if |init| == 1 {
            assert Join(init, sep) == init[0];
          } else {
            assert Join(init, sep) == Join(init[..|init| - 1], sep) + [sep] + init[|init| - 1];
          }
        }
        parts
  }

  /** True when `r` is the piece of `s` after its last `sep`: a suffix of `s`
      that holds no `sep` and is either all of `s` or preceded by `sep`. */
  predicate IsLastSegment(s: string, sep: char, r: string) {
    && |r| <= |s|
    && s[|s| - |r|..] == r
    && sep !in r
    && (|r| == |s| || s[|s| - |r| - 1] == sep)
  }

  /** The text after the last '/' of `s`, found by scanning from the end. */
  function LastSegment(s: string): (r: string)
    ensures IsLastSegment(s, '/', r)
    decreases |s|
  {
    if |s| == 0 then ""
    else if s[|s| - 1] == '/' then ""
    else
      var r := LastSegment(s[..|s| - 1]) + [s[|s| - 1]];
      assert s[|s| - |r|..] == s[..|s| - 1][|s| - |r|..] + [s[|s| - 1]];
      r
  }

  /** A string has exactly one last segment. */
  lemma LastSegmentUnique(s: string, sep: char, r1: string, r2: string)
    requires IsLastSegment(s, sep, r1) && IsLastSegment(s, sep, r2)
    ensures r1 == r2
  {
  }

  /** The last piece of Python's `s.split('/')` is the last segment of `s`. */
  lemma {:induction false} SplitLastIsLastSegment(s: string)
    ensures var parts := Split(s, '/'); parts[|parts| - 1] == LastSegment(s)
  {
    if |s| > 0 {
      SplitLastIsLastSegment(s[..|s| - 1]);
    }
  }

  /** The base name used on the target side: the override when it is truthy,
      otherwise `source.split('/')[-1]`. */
  function ImageName(cfg: ImageConfig): (name: string)
    ensures Truthy(cfg.target) ==> name == cfg.target.value
    ensures !Truthy(cfg.target) ==> IsLastSegment(cfg.source, '/', name)
  {
    if Truthy(cfg.target) then cfg.target.value
    else
      var parts := Split(cfg.source, '/');
      SplitLastIsLastSegment(cfg.source);
      parts[|parts| - 1]
  }

  /** `registry/namespace/name` for the configured image. */
  function TargetImage(cfg: ImageConfig, registry: string, namespace: string): (t: string)
    ensures |t| == |registry| + |namespace| + 2 + |ImageName(cfg)|
    ensures t[..|registry| + |namespace| + 2] == registry + "/" + namespace + "/"
    ensures t[|registry| + |namespace| + 2..] == ImageName(cfg)
  {
    var t := registry + "/" + namespace + "/" + ImageName(cfg);
    assert t[..|registry| + |namespace| + 2] == registry + "/" + namespace + "/";
    t
  }

  /** With a non-empty override the target is the override under
      `registry/namespace/`, whatever the source is. */
  lemma TargetWithOverride(cfg: ImageConfig, registry: string, namespace: string)
    requires cfg.target.Some? && cfg.target.value != ""
    ensures TargetImage(cfg, registry, namespace) == registry + "/" + namespace + "/" + cfg.target.value
    ensures forall src :: TargetImage(cfg.(source := src), registry, namespace) == TargetImage(cfg, registry, namespace)
  {
  }

  /** Without an override (absent or empty) the target name is the source's last
      '/'-segment: the whole source when it has no '/', with any `:tag` kept. */
  lemma TargetWithoutOverride(cfg: ImageConfig, registry: string, namespace: string)
    requires cfg.target.None? || cfg.target.value == ""
    ensures TargetImage(cfg, registry, namespace) == registry + "/" + namespace + "/" + LastSegment(cfg.source)
    ensures '/' !in cfg.source ==> TargetImage(cfg, registry, namespace) == registry + "/" + namespace + "/" + cfg.source
  {
    LastSegmentUnique(cfg.source, '/', ImageName(cfg), LastSegment(cfg.source));
    if '/' !in cfg.source {
      assert IsLastSegment(cfg.source, '/', cfg.source);
      LastSegmentUnique(cfg.source, '/', cfg.source, LastSegment(cfg.source));
    }
  }

  /** The target determines the base name: two configs whose targets agree under
      the same registry and namespace have the same base name. */
  lemma TargetDeterminesName(c1: ImageConfig, c2: ImageConfig, registry: string, namespace: string)
    requires TargetImage(c1, registry, namespace) == TargetImage(c2, registry, namespace)
    ensures ImageName(c1) == ImageName(c2)
  {
    var k := |registry| + |namespace| + 2;
    assert ImageName(c1) == TargetImage(c1, registry, namespace)[k..];
  }
}
