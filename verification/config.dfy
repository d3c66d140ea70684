/** The pipeline's settings: five feature switches read from environment
    variables and the numeric parameters with their defaults. */
module Config {
  import opened Common
  import opened Text
  import opened Seqs

  /** The spellings `_env_bool` accepts as "on", after stripping and lower-casing. */
  const TRUTHY: set<string> := {"1", "true", "yes", "y", "on"}

  /** `_env_bool(name, default)`, given the variable's value (`None` when unset). */
  function EnvBool(v: Option<string>, default: bool): bool {
    if v.None? then default else Lower(Strip(v.value)) in TRUTHY
  }

  /** `s` is `word` written in any mix of letter cases. */
  predicate SpelledAs(s: string, word: string) {
    |s| == |word| && forall k :: 0 <= k < |s| ==> LowerChar(s[k]) == word[k]
  }

  /** A set variable switches the feature on exactly when its value, once
      surrounding white space is dropped, is one of the five words in some
      letter case; the default plays no part. */
  lemma EnvBoolIff(v: string, default: bool)
    ensures EnvBool(Some(v), default) <==> exists w :: w in TRUTHY && SpelledAs(Strip(v), w)
  {
    var s := Strip(v);
    if EnvBool(Some(v), default) {
      assert SpelledAs(s, Lower(s));
    }
    if exists w :: w in TRUTHY && SpelledAs(s, w) {
      var w :| w in TRUTHY && SpelledAs(s, w);
      assert Lower(s) == w;
    }
  }

  /** An unset variable yields the default. */
  lemma UnsetIsDefault(default: bool)
    ensures EnvBool(None, default) == default
  {
  }

  /** A set but empty variable turns the feature off even when it defaults on. */
  lemma EmptyIsOff()
    ensures !EnvBool(Some(""), true)
  {
    assert Strip("") == "";
    assert Lower("") == "";
  }

  /** " ON " switches a feature on. */
  lemma PaddedOn()
    ensures EnvBool(Some(" ON "), false)
  {
    assert SkipSpace(" ON ", 0) == 1;
    assert SkipSpaceBack(" ON ", 1, 4) == 3;
    assert Strip(" ON ") == "ON";
    assert Lower("ON") == "on";
  }

  /** The first non-blank index at or after `i` is the one `SkipSpace` finds. */
  lemma {:induction false} SkipSpaceIs(s: string, i: nat, r: nat)
    requires i <= r <= |s|
    requires forall k :: i <= k < r ==> IsSpace(s[k])
    requires r < |s| ==> !IsSpace(s[r])
    ensures SkipSpace(s, i) == r
    decreases r - i
  {
    if i < r {
      SkipSpaceIs(s, i + 1, r);
    }
  }

  lemma {:induction false} SkipSpaceBackIs(s: string, lo: nat, j: nat, r: nat)
    requires lo <= r <= j <= |s|
    requires forall k :: r <= k < j ==> IsSpace(s[k])
    requires r > lo ==> !IsSpace(s[r - 1])
    ensures SkipSpaceBack(s, lo, j) == r
    decreases j - r
  {
    if r < j {
      SkipSpaceBackIs(s, lo, j - 1, r);
    }
  }

  /** Only the stripped value matters: surrounding white space is ignored. */
  lemma PaddingIgnored(v: string, default: bool)
    ensures EnvBool(Some(v), default) == EnvBool(Some(Strip(v)), default)
  {
    StripIdempotent(v);
  }

  /** Two strings equal up to letter case have their blanks in the same places. */
  lemma SpacesAgree(v: string, w: string)
    requires Lower(v) == Lower(w)
    ensures |v| == |w|
    ensures forall k :: 0 <= k < |v| ==> (IsSpace(v[k]) <==> IsSpace(w[k]))
  {
    forall k | 0 <= k < |v| ensures IsSpace(v[k]) <==> IsSpace(w[k]) {
      assert LowerChar(v[k]) == LowerChar(w[k]);
    }
  }

  /** Strings with blanks in the same places are stripped at the same offsets. */
  lemma StripAgrees(v: string, w: string)
    requires |v| == |w|
    requires forall k :: 0 <= k < |v| ==> (IsSpace(v[k]) <==> IsSpace(w[k]))
    ensures StripOffset(v) == StripOffset(w) && |Strip(v)| == |Strip(w)|
  {
    var o := StripOffset(v);
    SkipSpaceIs(w, 0, o);
    SkipSpaceBackIs(w, o, |w|, SkipSpaceBack(v, o, |v|));
  }

  lemma LowerSlice(v: string, lo: nat, hi: nat)
    requires lo <= hi <= |v|
    ensures Lower(v[lo..hi]) == Lower(v)[lo..hi]
  {
  }

  /** Matching ignores letter case. */
  lemma CaseIgnored(v: string, w: string, default: bool)
    requires Lower(v) == Lower(w)
    ensures EnvBool(Some(v), default) == EnvBool(Some(w), default)
  {
    SpacesAgree(v, w);
    StripAgrees(v, w);
    var o := StripOffset(v);
    var m := |Strip(v)|;
    assert Strip(v) == v[o..o + m] && Strip(w) == w[o..o + m];
    LowerSlice(v, o, o + m);
    LowerSlice(w, o, o + m);
    assert Lower(Strip(v)) == Lower(Strip(w));
  }

  /** The settings record; numeric values are given, not parsed. */
  datatype Settings = Settings(
    enableHybrid: bool := true,
    enableRerank: bool := false,
    enableQueryExpansion: bool := false,
    enableSelfRag: bool := true,
    enableCrag: bool := false,
    topK: int := 5,
    alpha: real := 0.55,
    queryExpansionN: int := 3,
    chunkSize: int := 800,
    chunkOverlap: int := 200,
    openaiModel: string := "gpt-4o-mini",
    openaiTemperature: real := 0.2,
    rawPdfDir: string := "data/raw_pdfs")

  /** The switches as `Settings()` reads them from `env`, the other fields as in `base`. */
  function ReadFlags(env: string -> Option<string>, base: Settings): (s: Settings)
    ensures s == base.(enableHybrid := s.enableHybrid, enableRerank := s.enableRerank,
      enableQueryExpansion := s.enableQueryExpansion, enableSelfRag := s.enableSelfRag, enableCrag := s.enableCrag)
    ensures env("ENABLE_HYBRID").None? ==> s.enableHybrid
    ensures env("ENABLE_RERANK").None? ==> !s.enableRerank
    ensures env("ENABLE_QUERY_EXPANSION").None? ==> !s.enableQueryExpansion
    ensures env("ENABLE_SELF_RAG").None? ==> s.enableSelfRag
    ensures env("ENABLE_CRAG").None? ==> !s.enableCrag
  {
    base.(
      enableHybrid := EnvBool(env("ENABLE_HYBRID"), true),
      enableRerank := EnvBool(env("ENABLE_RERANK"), false),
      enableQueryExpansion := EnvBool(env("ENABLE_QUERY_EXPANSION"), false),
      enableSelfRag := EnvBool(env("ENABLE_SELF_RAG"), true),
      enableCrag := EnvBool(env("ENABLE_CRAG"), false))
  }

  /** Each switch is read from its own variable: a set variable decides it
      by its spelling alone, whatever the switch's default. */
  lemma SwitchesFromVariables(env: string -> Option<string>, base: Settings)
    ensures var s := ReadFlags(env, base);
      && (env("ENABLE_HYBRID").Some? ==> (s.enableHybrid <==> Lower(Strip(env("ENABLE_HYBRID").value)) in TRUTHY))
      && (env("ENABLE_RERANK").Some? ==> (s.enableRerank <==> Lower(Strip(env("ENABLE_RERANK").value)) in TRUTHY))
      && (env("ENABLE_QUERY_EXPANSION").Some? ==>
            (s.enableQueryExpansion <==> Lower(Strip(env("ENABLE_QUERY_EXPANSION").value)) in TRUTHY))
      && (env("ENABLE_SELF_RAG").Some? ==> (s.enableSelfRag <==> Lower(Strip(env("ENABLE_SELF_RAG").value)) in TRUTHY))
      && (env("ENABLE_CRAG").Some? ==> (s.enableCrag <==> Lower(Strip(env("ENABLE_CRAG").value)) in TRUTHY))
  {
  }

  /** With nothing set, the switches take the record's declared defaults. */
  lemma EmptyEnvDefaults()
    ensures ReadFlags(_ => None, Settings()) == Settings()
  {
  }
}
