/** The credential gate `Config.validate` and the key masking of `Config.print_config`
    (github_agent/src/config.py). The keys are the values read from the environment, with
    "" for an unset variable; what `validate` prints is returned as its diagnostic. */
module Config {
  import opened Text

  datatype Keys = Keys(openAiKey: string, anthropicKey: string, githubToken: string, tavilyKey: string)

  /** The outcome of `validate`: accepted, the required names that are empty (in the order
      they are listed), or no LLM key at all. */
  datatype Validation = Accepted | MissingRequired(names: seq<string>) | MissingLlmKey

  /** `[name for name, value in required if not value]`. */
  function MissingNames(required: seq<(string, string)>): (names: seq<string>)
    ensures |names| <= |required|
    ensures forall n :: n in names ==> exists i :: 0 <= i < |required| && required[i] == (n, "")
    decreases |required|
  {
    if required == [] then []
    else
      var rest := MissingNames(required[1..]);
      assert forall n :: n in rest ==> exists i :: 0 <= i < |required| && required[i] == (n, "") by {
        forall n | n in rest ensures exists i :: 0 <= i < |required| && required[i] == (n, "") {
          var j :| 0 <= j < |required[1..]| && required[1..][j] == (n, "");
          assert required[j + 1] == (n, "");
        }
      }
      if required[0].1 == "" then [required[0].0] + rest else rest
  }

  /** The required settings, in the order `validate` lists them. */
  function Required(keys: Keys): seq<(string, string)> {
    [("GITHUB_TOKEN", keys.githubToken), ("TAVILY_API_KEY", keys.tavilyKey)]
  }

  /** The checks of `validate`, in order: required settings first, then the LLM key. */
  function Check(keys: Keys): Validation {
    var missing := MissingNames(Required(keys));
    if missing != [] then MissingRequired(missing)
    else if !(keys.openAiKey != "" || keys.anthropicKey != "") then MissingLlmKey
    else Accepted
  }

  const MissingPrefix := "❌ Missing required configuration: "

  /** What `validate` prints before it returns: nothing when it accepts, otherwise the
      line naming what is missing. */
  function Diagnostic(v: Validation): (r: string)
    ensures r == "" <==> v.Accepted?
    ensures v.MissingRequired? ==> forall i :: 0 <= i < |v.names| ==> Contains(r, v.names[i])
  {
    match v
    case Accepted => ""
    case MissingRequired(names) =>
      JoinedPartsShown(MissingPrefix, names, ", ");
      MissingPrefix + Join(names, ", ")
    case MissingLlmKey => MissingPrefix + "Need either OPENAI_API_KEY or ANTHROPIC_API_KEY"
  }

  /** `Config.validate()`: it returns `True` exactly when it prints nothing. */
  function Validate(keys: Keys): (r: bool)
    ensures r <==> Diagnostic(Check(keys)) == ""
  {
    Check(keys).Accepted?
  }

  /** The names missing from the two required settings, in order. */
  lemma MissingOfRequired(keys: Keys)
    ensures MissingNames(Required(keys)) ==
              (if keys.githubToken == "" then ["GITHUB_TOKEN"] else [])
              + (if keys.tavilyKey == "" then ["TAVILY_API_KEY"] else [])
  {
    var req := Required(keys);
    assert req[1..] == [("TAVILY_API_KEY", keys.tavilyKey)];
    assert req[1..][1..] == [];
    assert MissingNames(req[1..]) == (if keys.tavilyKey == "" then ["TAVILY_API_KEY"] else []);
  }

  /** The gate accepts exactly when both required keys and at least one LLM key are set. */
  lemma ValidateIff(keys: Keys)
    ensures Validate(keys) <==>
              keys.githubToken != "" && keys.tavilyKey != "" && (keys.openAiKey != "" || keys.anthropicKey != "")
  {
    MissingOfRequired(keys);
  }

  /** Missing required keys are reported by name, in order, before the LLM key is looked
      at. */
  lemma MissingRequiredFirst(keys: Keys)
    ensures keys.githubToken == "" && keys.tavilyKey == "" ==>
              Check(keys) == MissingRequired(["GITHUB_TOKEN", "TAVILY_API_KEY"])
    ensures keys.githubToken == "" && keys.tavilyKey != "" ==> Check(keys) == MissingRequired(["GITHUB_TOKEN"])
    ensures keys.githubToken != "" && keys.tavilyKey == "" ==> Check(keys) == MissingRequired(["TAVILY_API_KEY"])
    ensures keys.githubToken != "" && keys.tavilyKey != "" && keys.openAiKey == "" && keys.anthropicKey == "" ==>
              Check(keys) == MissingLlmKey
  {
    MissingOfRequired(keys);
  }

  const NotSet := "❌ Not set"

  /** `mask_key` inside `print_config`. */
  function MaskKey(key: string): (r: string)
    ensures r == NotSet <==> |key| < 8
    ensures |key| >= 8 ==> |r| == 13 && r[2..6] == key[..4] && r[|r| - 4..] == key[|key| - 4..]
  {
    if key == "" || |key| < 8 then NotSet else "✅ " + key[..4] + "..." + key[|key| - 4..]
  }

  /** A key shorter than 8 characters, set or not, shows as not set; a longer one shows
      exactly its first and last four characters, in a mask of fixed length. */
  lemma MaskShowsOnlyTheEnds(key: string)
    ensures |key| < 8 ==> MaskKey(key) == NotSet
    ensures |key| >= 8 ==>
              |MaskKey(key)| == 13 && MaskKey(key)[2..6] == key[..4]
              && MaskKey(key)[6..9] == "..." && MaskKey(key)[9..] == key[|key| - 4..]
  {
  }

  /** The mask depends only on the first and last four characters, and determines them. */
  lemma MaskDeterminedByEnds(a: string, b: string)
    requires |a| >= 8 && |b| >= 8
    ensures MaskKey(a) == MaskKey(b) <==> a[..4] == b[..4] && a[|a| - 4..] == b[|b| - 4..]
  {
    MaskShowsOnlyTheEnds(a);
    MaskShowsOnlyTheEnds(b);
    if a[..4] == b[..4] && a[|a| - 4..] == b[|b| - 4..] {
      assert MaskKey(a) == MaskKey(b);
    }
  }
}
