/**
 * The prompt versions of the detection, tagging and multiple-choice tasks. Each task keeps
 * its own dictionary of templates (PROMPT_TEMPLATES, PROMPT_CONFIGS, PROMPT_CONFIGS_EASY), and
 * all three are keyed by the same six versions; each template's language is the part of its
 * version after the first '_'. The template texts and their rendering are not modelled: a
 * driver receives the rendering as a function.
 */
module TaskPrompts {
  import opened Wrappers
  import opened PyStr

  /** The keys of every task's template dictionary, in their order. */
  const Versions: seq<string> := ["v1_en", "v2_en", "v3_en", "v1_zh_tw", "v2_zh_tw", "v3_zh_tw"]

  /** str(list(keys)): how the drivers list the versions in their error message. */
  const VersionList := "['v1_en', 'v2_en', 'v3_en', 'v1_zh_tw', 'v2_zh_tw', 'v3_zh_tw']"

  /**
   * The check every driver makes before any other work: the template's language for a
   * known version, and otherwise the ValueError naming the version and the known ones.
   */
  function PromptLanguage(version: string): (r: Result<string>)
    ensures r.Ok? <==> version in Versions
    ensures r.Ok? ==> r.value == "en" || r.value == "zh_tw"
    ensures r.Err? ==> r.error == "Unknown prompt version: " + version + ". Available: " + VersionList
  {
    if version == "v1_en" || version == "v2_en" || version == "v3_en" then Ok("en")
    else if version == "v1_zh_tw" || version == "v2_zh_tw" || version == "v3_zh_tw" then Ok("zh_tw")
    else Err("Unknown prompt version: " + version + ". Available: " + VersionList)
  }

  /** A template's language is what follows the first '_' of its version. */
  lemma LanguageAfterUnderscore(version: string)
    requires version in Versions
    ensures '_' in version && PromptLanguage(version) == Ok(version[IndexOf(version, '_') + 1..])
  {
    if version == "v1_en" {
      Versioned("v1", "en", version);
    } else if version == "v2_en" {
      Versioned("v2", "en", version);
    } else if version == "v3_en" {
      Versioned("v3", "en", version);
    } else if version == "v1_zh_tw" {
      Versioned("v1", "zh_tw", version);
    } else if version == "v2_zh_tw" {
      Versioned("v2", "zh_tw", version);
    } else {
      Versioned("v3", "zh_tw", version);
    }
  }

  lemma Versioned(number: string, language: string, version: string)
    requires |number| == 2 && '_' !in number && version == number + "_" + language
    ensures '_' in version && version[IndexOf(version, '_') + 1..] == language
  {
    assert version[2] == '_' && version[..2] == number;
    IndexOfFirst(version, '_', 2);
    assert version[3..] == language;
  }
}
