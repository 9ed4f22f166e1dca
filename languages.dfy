/** The static tables of the translator view: the target languages offered in
    the selector, the example sentences offered as suggestions, and the
    lookup that turns a history entry's language code into its label. */
module Languages {
  import opened Wrappers

  datatype LanguageOption = LanguageOption(code: string, name: string)  // the option's `label`

  /** The eleven target languages, in the order the selector lists them. */
  const Options: seq<LanguageOption> := [
    LanguageOption("hi", "Hindi"),
    LanguageOption("mr", "Marathi"),
    LanguageOption("bn", "Bengali"),
    LanguageOption("ta", "Tamil"),
    LanguageOption("te", "Telugu"),
    LanguageOption("gu", "Gujarati"),
    LanguageOption("kn", "Kannada"),
    LanguageOption("ml", "Malayalam"),
    LanguageOption("fr", "French"),
    LanguageOption("es", "Spanish"),
    LanguageOption("de", "German")
  ]

  /** The example sentences a click copies into the source text. */
  const Suggestions: seq<string> := [
    "Hello, how are you?",
    "Thank you for your help.",
    "Where is the nearest railway station?",
    "I am learning programming.",
    "Have a great day!"
  ]

  /** The language selected when the view is mounted. */
  const DefaultTarget: string := "hi"

  /** `options.find(l => l.code === code)?.label`: the label of the first
      option whose code is `code`, or nothing when no option has it. */
  function Find(options: seq<LanguageOption>, code: string): (r: Option<string>)
    ensures r.None? <==> forall i :: 0 <= i < |options| ==> options[i].code != code
    ensures r.Some? ==> exists i :: 0 <= i < |options| && options[i].code == code && r.value == options[i].name
                                   && forall j :: 0 <= j < i ==> options[j].code != code
  {
    if options == [] then None
    else if options[0].code == code then Some(options[0].name)
    else Find(options[1..], code)
  }

  /** The label the history list shows next to an entry's language code. */
  function LabelOf(code: string): (r: Option<string>)
    ensures r.None? <==> forall i :: 0 <= i < |Options| ==> Options[i].code != code
  {
    Find(Options, code)
  }

  predicate DistinctCodes(options: seq<LanguageOption>) {
    forall i, j :: 0 <= i < j < |options| ==> options[i].code != options[j].code
  }

  /** With distinct codes, the lookup finds exactly the option carrying the code. */
  lemma FindDistinct(options: seq<LanguageOption>, k: nat)
    requires DistinctCodes(options)
    requires k < |options|
    ensures Find(options, options[k].code) == Some(options[k].name)
  {
  }

  /** Every listed language shows its own label in the history view. */
  lemma LabelOfListed(k: nat)
    requires k < |Options|
    ensures LabelOf(Options[k].code) == Some(Options[k].name)
  {
    assert DistinctCodes(Options);
    FindDistinct(Options, k);
  }

  lemma DefaultTargetListed()
    ensures Options[0].code == DefaultTarget
    ensures LabelOf(DefaultTarget) == Some("Hindi")
  {
  }
}
