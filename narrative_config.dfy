/**
 * The prompt registry of the narrative task: prompt versions are kept in a dictionary under
 * the key "<prompt type value>_<version>", so one version name can exist once per prompt type.
 */
module NarrativeConfig {
  import opened Wrappers

  /** The default number of attempts of the narrative retry loops. */
  const MaxRetries := 5

  datatype Language = English | ChineseTraditional | ChineseSimplified

  /** Language.value */
  function LanguageValue(l: Language): string {
    match l
    case English => "en"
    case ChineseTraditional => "zh_tw"
    case ChineseSimplified => "zh"
  }

  datatype PromptType = NarrativeGeneration | NarrativeEvaluation

  /** PromptType.value; both values are 20 characters long. */
  function TypeValue(t: PromptType): (s: string)
    ensures |s| == 20
  {
    match t
    case NarrativeGeneration => "narrative_generation"
    case NarrativeEvaluation => "narrative_evaluation"
  }

  /** A registered prompt; its template text and description are not part of this model. */
  datatype PromptVersion = PromptVersion(version: string, language: Language, promptType: PromptType)

  /** The registry key of a prompt type and version. */
  function Key(t: PromptType, version: string): string {
    TypeValue(t) + "_" + version
  }

  /** Two keys are equal only for the same prompt type and the same version. */
  lemma KeyInjective(t1: PromptType, v1: string, t2: PromptType, v2: string)
    ensures Key(t1, v1) == Key(t2, v2) <==> t1 == t2 && v1 == v2
  {
    if Key(t1, v1) == Key(t2, v2) {
      var k := Key(t1, v1);
      assert k[..20] == TypeValue(t1) && k[..20] == TypeValue(t2);
      assert k[21..] == v1 && Key(t2, v2)[21..] == v2;
      assert TypeValue(t1) == TypeValue(t2);
      assert TypeValue(NarrativeGeneration)[10] != TypeValue(NarrativeEvaluation)[10];
    }
  }

  /** The registry after register_prompt(p). */
  function Register(m: map<string, PromptVersion>, p: PromptVersion): map<string, PromptVersion> {
    m[Key(p.promptType, p.version) := p]
  }

  /** get_prompt on a registry: the prompt under the key, or the ValueError naming the key. */
  function Lookup(m: map<string, PromptVersion>, t: PromptType, version: string): (r: Result<PromptVersion>)
    ensures r.Ok? <==> Key(t, version) in m
    ensures r.Ok? ==> r.value == m[Key(t, version)]
    ensures r.Err? ==> r.error == "Prompt not found: " + Key(t, version)
  {
    var key := Key(t, version);
    if key !in m then Err("Prompt not found: " + key) else Ok(m[key])
  }

  /** After registering p, asking for its type and version gives p. */
  lemma LookupAfterRegister(m: map<string, PromptVersion>, p: PromptVersion)
    ensures Lookup(Register(m, p), p.promptType, p.version) == Ok(p)
  {
  }

  /** Registering p changes the answer for no other (type, version) pair. */
  lemma LookupOtherAfterRegister(m: map<string, PromptVersion>, p: PromptVersion, t: PromptType, version: string)
    requires (t, version) != (p.promptType, p.version)
    ensures Lookup(Register(m, p), t, version) == Lookup(m, t, version)
  {
    KeyInjective(t, version, p.promptType, p.version);
  }

  /** A second registration under the same type and version replaces the first. */
  lemma RegisterOverwrites(m: map<string, PromptVersion>, p: PromptVersion, q: PromptVersion)
    requires p.promptType == q.promptType && p.version == q.version
    ensures Register(Register(m, p), q) == Register(m, q)
    ensures Lookup(Register(Register(m, p), q), p.promptType, p.version) == Ok(q)
  {
  }

  /** The prompts _initialize_prompts registers, in order. */
  const DefaultPrompts: seq<PromptVersion> := [
    PromptVersion("v1_en", English, NarrativeGeneration),
    PromptVersion("v2_en", English, NarrativeGeneration),
    PromptVersion("v3_en", English, NarrativeGeneration),
    PromptVersion("v1_zh_tw", ChineseTraditional, NarrativeGeneration),
    PromptVersion("v2_zh_tw", ChineseTraditional, NarrativeGeneration),
    PromptVersion("v3_zh_tw", ChineseTraditional, NarrativeGeneration),
    PromptVersion("v1_en", English, NarrativeEvaluation),
    PromptVersion("v1_zh_tw", ChineseTraditional, NarrativeEvaluation)
  ]

  /** The registry after registering ps one after another. */
  function RegisterAll(m: map<string, PromptVersion>, ps: seq<PromptVersion>): map<string, PromptVersion>
    decreases |ps|
  {
    if ps == [] then m else RegisterAll(Register(m, ps[0]), ps[1..])
  }

  /** The registry of a fresh manager. */
  function DefaultRegistry(): map<string, PromptVersion> {
    RegisterAll(map[], DefaultPrompts)
  }

  /** The keys of a list of prompts. */
  function KeysOf(ps: seq<PromptVersion>): set<string> {
    set i | 0 <= i < |ps| :: Key(ps[i].promptType, ps[i].version)
  }

  /** Registering a list of prompts adds exactly their keys. */
  lemma {:induction false} RegisterAllKeys(m: map<string, PromptVersion>, ps: seq<PromptVersion>)
    ensures RegisterAll(m, ps).Keys == m.Keys + KeysOf(ps)
    decreases |ps|
  {
    if ps != [] {
      RegisterAllKeys(Register(m, ps[0]), ps[1..]);
      assert KeysOf(ps) == {Key(ps[0].promptType, ps[0].version)} + KeysOf(ps[1..]) by {
        forall i | 0 <= i < |ps[1..]|
          ensures Key(ps[1..][i].promptType, ps[1..][i].version) in KeysOf(ps)
        {
          assert ps[1..][i] == ps[i + 1];
        }
        forall k | k in KeysOf(ps) && k != Key(ps[0].promptType, ps[0].version)
          ensures k in KeysOf(ps[1..])
        {
          var i :| 0 <= i < |ps| && k == Key(ps[i].promptType, ps[i].version);
          assert ps[i] == ps[1..][i - 1];
        }
      }
    }
  }

  /** Prompts whose (type, version) pairs are pairwise different. */
  predicate DistinctPairs(ps: seq<PromptVersion>) {
    forall i, j :: 0 <= i < j < |ps| ==> (ps[i].promptType, ps[i].version) != (ps[j].promptType, ps[j].version)
  }

  /** Registering prompts with pairwise different, new pairs adds one entry per prompt. */
  lemma {:induction false} RegisterAllSize(m: map<string, PromptVersion>, ps: seq<PromptVersion>)
    requires DistinctPairs(ps)
    requires forall i :: 0 <= i < |ps| ==> Key(ps[i].promptType, ps[i].version) !in m
    ensures |RegisterAll(m, ps)| == |m| + |ps|
    decreases |ps|
  {
    if ps != [] {
      var m' := Register(m, ps[0]);
      forall i | 0 <= i < |ps[1..]|
        ensures Key(ps[1..][i].promptType, ps[1..][i].version) !in m'
      {
        assert ps[1..][i] == ps[i + 1];
        KeyInjective(ps[0].promptType, ps[0].version, ps[i + 1].promptType, ps[i + 1].version);
      }
      assert DistinctPairs(ps[1..]) by {
        forall i, j | 0 <= i < j < |ps[1..]|
          ensures (ps[1..][i].promptType, ps[1..][i].version) != (ps[1..][j].promptType, ps[1..][j].version)
        {
          assert ps[1..][i] == ps[i + 1] && ps[1..][j] == ps[j + 1];
        }
      }
      RegisterAllSize(m', ps[1..]);
    }
  }

  /**
   * A fresh manager holds exactly eight prompts: generation v1, v2 and v3 in English and in
   * traditional Chinese, and evaluation v1 in both.
   */
  lemma DefaultRegistrySize()
    ensures DefaultRegistry().Keys == KeysOf(DefaultPrompts)
    ensures |DefaultRegistry()| == 8
  {
    DefaultPairsDistinct();
    FreshRegistry(DefaultPrompts);
    assert |DefaultPrompts| == 8;
  }

  /** Registering prompts of distinct keys into an empty manager keeps one entry per prompt. */
  lemma FreshRegistry(ps: seq<PromptVersion>)
    requires DistinctPairs(ps)
    ensures RegisterAll(map[], ps).Keys == KeysOf(ps)
    ensures |RegisterAll(map[], ps)| == |ps|
  {
    RegisterAllKeys(map[], ps);
    RegisterAllSize(map[], ps);
  }

  /** No two default prompts share a type and a version. */
  lemma DefaultPairsDistinct()
    ensures DistinctPairs(DefaultPrompts)
  {
    var versions := ["v1_en", "v2_en", "v3_en", "v1_zh_tw", "v2_zh_tw", "v3_zh_tw"];
    assert forall i, j :: 0 <= i < j < |versions| ==> versions[i][1] != versions[j][1] || |versions[i]| != |versions[j]|;
    forall i, j | 0 <= i < j < |DefaultPrompts|
      ensures (DefaultPrompts[i].promptType, DefaultPrompts[i].version) != (DefaultPrompts[j].promptType, DefaultPrompts[j].version)
    {
      if j < 6 {
        assert DefaultPrompts[i].version == versions[i] && DefaultPrompts[j].version == versions[j];
      }
    }
  }

  /** get_prompt for evaluation "v2_en" on a fresh manager raises, naming the key. */
  lemma DefaultLacksEvaluationV2()
    ensures Lookup(DefaultRegistry(), NarrativeEvaluation, "v2_en") == Err("Prompt not found: " + Key(NarrativeEvaluation, "v2_en"))
  {
    RegisterAllKeys(map[], DefaultPrompts);
    forall i | 0 <= i < |DefaultPrompts|
      ensures Key(DefaultPrompts[i].promptType, DefaultPrompts[i].version) != Key(NarrativeEvaluation, "v2_en")
    {
      KeyInjective(DefaultPrompts[i].promptType, DefaultPrompts[i].version, NarrativeEvaluation, "v2_en");
    }
  }

  /** Whether a prompt passes the optional filters of list_prompts. */
  predicate PassesFilters(p: PromptVersion, typeFilter: Option<PromptType>, languageFilter: Option<Language>) {
    (typeFilter.None? || p.promptType == typeFilter.value) && (languageFilter.None? || p.language == languageFilter.value)
  }

  /** What list_prompts returns: the entries that pass the filters, under their own keys. */
  function Filtered(m: map<string, PromptVersion>, typeFilter: Option<PromptType>, languageFilter: Option<Language>): map<string, PromptVersion> {
    map key | key in m && PassesFilters(m[key], typeFilter, languageFilter) :: m[key]
  }

  /** Without filters every entry is listed; with them, exactly the matching entries are. */
  lemma FilteredSpec(m: map<string, PromptVersion>, typeFilter: Option<PromptType>, languageFilter: Option<Language>)
    ensures Filtered(m, None, None) == m
    ensures forall key :: key in Filtered(m, typeFilter, languageFilter) <==> key in m && PassesFilters(m[key], typeFilter, languageFilter)
    ensures forall key <- Filtered(m, typeFilter, languageFilter) :: Filtered(m, typeFilter, languageFilter)[key] == m[key]
  {
  }

  class PromptManager {
    var prompts: map<string, PromptVersion>

    /** A fresh manager holds the default prompts. */
    constructor ()
      ensures prompts == DefaultRegistry()
    {
      prompts := map[];
      new;
      RegisterPrompt(DefaultPrompts[0]);
      RegisterPrompt(DefaultPrompts[1]);
      RegisterPrompt(DefaultPrompts[2]);
      RegisterPrompt(DefaultPrompts[3]);
      RegisterPrompt(DefaultPrompts[4]);
      RegisterPrompt(DefaultPrompts[5]);
      RegisterPrompt(DefaultPrompts[6]);
      RegisterPrompt(DefaultPrompts[7]);
    }

    /** register_prompt: stores the prompt under its key, replacing any earlier one. */
    method RegisterPrompt(p: PromptVersion)
      modifies this
      ensures prompts == Register(old(prompts), p)
    {
      prompts := prompts[Key(p.promptType, p.version) := p];
    }

    /** get_prompt: reads the registry and leaves it as it is. */
    function GetPrompt(t: PromptType, version: string): (r: Result<PromptVersion>)
      reads this
      ensures r == Lookup(prompts, t, version)
    {
      Lookup(prompts, t, version)
    }

    /** list_prompts: one pass over the entries, keeping those that pass the filters. */
    method ListPrompts(typeFilter: Option<PromptType>, languageFilter: Option<Language>)
      returns (filtered: map<string, PromptVersion>)
      ensures filtered == Filtered(prompts, typeFilter, languageFilter)
    {
      filtered := map[];
      var remaining := prompts.Keys;
      while remaining != {}
        invariant remaining <= prompts.Keys
        invariant filtered == map key | key in prompts && key !in remaining && PassesFilters(prompts[key], typeFilter, languageFilter) :: prompts[key]
        decreases |remaining|
      {
        var key :| key in remaining;
        var prompt := prompts[key];
        remaining := remaining - {key};
        if typeFilter.Some? && prompt.promptType != typeFilter.value {
          continue;
        }
        if languageFilter.Some? && prompt.language != languageFilter.value {
          continue;
        }
        filtered := filtered[key := prompt];
      }
    }
  }
}
