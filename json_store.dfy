/**
 * The application store: the editor text with the fields derived from parsing it, the
 * settings, the AI busy flags and the modal flags, with the actions that update them,
 * the projection that is persisted and the rule applied when it is loaded back.
 * Parsing and serialising JSON are oracles the store is built with; an AI call is a
 * function from the text, the key and the preferred model to its outcome.
 */
module JsonStore {
  import opened Wrappers
  import opened JsonValues

  /** `safeParseJSON`: the parsed value, or the parser's error message. */
  datatype ParseResult = Parsed(data: JsonValue) | ParseError(message: string)

  datatype Theme = Light | Dark
  datatype ViewMode = CodeMode | TreeMode | SplitMode

  /** The content shown in the generated-content dialog. */
  datatype Generated = Generated(title: string, content: string)

  /** The persisted part of the store. */
  datatype Persisted = Persisted(theme: Theme, apiKey: string, preferredModel: string, rawText: string, viewMode: ViewMode)

  const SchemaTitle: string := "TypeScript Schema"
  const ExplanationTitle: string := "Explanation"

  /** The fields `setText` derives from a parse result. */
  predicate DerivedFrom(r: ParseResult, parsedData: JsonValue, error: Option<string>, isValid: bool)
  {
    match r
    case Parsed(d) => parsedData == d && error == None && isValid
    case ParseError(m) => parsedData == JNull && error == Some(m) && !isValid
  }

  /**
   * What the derived fields say: `isValid` holds exactly when parsing succeeded, `error`
   * is absent exactly when `isValid`, and a failed parse leaves `null` data.
   */
  lemma DerivedFieldsMeaning(r: ParseResult, parsedData: JsonValue, error: Option<string>, isValid: bool)
    requires DerivedFrom(r, parsedData, error, isValid)
    ensures isValid <==> r.Parsed?
    ensures error.None? <==> isValid
    ensures !isValid ==> parsedData == JNull && error == Some(r.message)
    ensures isValid ==> parsedData == r.data
  {
  }

  /** `formatJSON` and `minifyJSON`: the value re-serialised by `show`, or the text itself when it does not parse. */
  function Reserialize(parse: string -> ParseResult, show: JsonValue -> string, text: string): (r: string)
    ensures parse(text).ParseError? ==> r == text
    ensures parse(text).Parsed? ==> r == show(parse(text).data)
  {
    match parse(text)
    case Parsed(v) => show(v)
    case ParseError(_) => text
  }

  /** `show` writes every value so that `parse` reads the same value back. */
  ghost predicate RoundTrips(parse: string -> ParseResult, show: JsonValue -> string)
  {
    forall v :: parse(show(v)) == Parsed(v)
  }

  class Store {
    const parse: string -> ParseResult
    /** `JSON.stringify(value, null, 2)`. */
    const pretty: JsonValue -> string
    /** `JSON.stringify(value)`. */
    const compact: JsonValue -> string

    var rawText: string
    var parsedData: JsonValue
    var error: Option<string>
    var isValid: bool
    var theme: Theme
    var viewMode: ViewMode
    var apiKey: string
    var preferredModel: string
    var isAiModalOpen: bool
    var isInfoModalOpen: bool
    var isFixing: bool
    var isGenerating: bool
    var generatedContent: Option<Generated>

    /** The initial state. It is not derived by parsing: `isValid` starts true for the empty text. */
    constructor (parse: string -> ParseResult, pretty: JsonValue -> string, compact: JsonValue -> string)
      ensures this.parse == parse && this.pretty == pretty && this.compact == compact
      ensures rawText == "" && parsedData == JNull && error == None && isValid
      ensures theme == Dark && viewMode == SplitMode && apiKey == "" && preferredModel == "auto"
      ensures !isAiModalOpen && !isInfoModalOpen && !isFixing && !isGenerating && generatedContent == None
    {
      this.parse, this.pretty, this.compact := parse, pretty, compact;
      rawText, parsedData, error, isValid := "", JNull, None, true;
      theme, viewMode, apiKey, preferredModel := Dark, SplitMode, "", "auto";
      isAiModalOpen, isInfoModalOpen, isFixing, isGenerating := false, false, false, false;
      generatedContent := None;
    }

    /** The derived fields agree with parsing the current text. */
    predicate Synced()
      reads this
    {
      DerivedFrom(parse(rawText), parsedData, error, isValid)
    }

    /** `setText`: stores the text and derives the other fields from parsing it. */
    method SetText(text: string)
      modifies this`rawText, this`parsedData, this`error, this`isValid
      ensures rawText == text && Synced()
    {
      rawText := text;
      match parse(text)
      case Parsed(d) =>
        parsedData, error, isValid := d, None, true;
      case ParseError(m) =>
        parsedData, error, isValid := JNull, Some(m), false;
    }

    /** `format`: pretty-prints valid text; invalid text stays as it is, now with its derived fields. */
    method Format()
      modifies this`rawText, this`parsedData, this`error, this`isValid
      ensures rawText == Reserialize(parse, pretty, old(rawText)) && Synced()
      ensures RoundTrips(parse, pretty) && parse(old(rawText)).Parsed? ==>
        isValid && parsedData == parse(old(rawText)).data
    {
      SetText(Reserialize(parse, pretty, rawText));
    }

    /** `minify`: the same with the compact serialisation. */
    method Minify()
      modifies this`rawText, this`parsedData, this`error, this`isValid
      ensures rawText == Reserialize(parse, compact, old(rawText)) && Synced()
      ensures RoundTrips(parse, compact) && parse(old(rawText)).Parsed? ==>
        isValid && parsedData == parse(old(rawText)).data
    {
      SetText(Reserialize(parse, compact, rawText));
    }

    /** `clear`: the empty text, with the fields parsing it derives. */
    method Clear()
      modifies this`rawText, this`parsedData, this`error, this`isValid
      ensures rawText == "" && Synced()
    {
      SetText("");
    }

    // -------------------------------------------------------------------------
    // Simple setters: each changes its own field and nothing else.

    method SetTheme(t: Theme)
      modifies this`theme
      ensures theme == t
    {
      theme := t;
    }

    method SetViewMode(mode: ViewMode)
      modifies this`viewMode
      ensures viewMode == mode
    {
      viewMode := mode;
    }

    method SetApiKey(key: string)
      modifies this`apiKey
      ensures apiKey == key
    {
      apiKey := key;
    }

    method SetPreferredModel(model: string)
      modifies this`preferredModel
      ensures preferredModel == model
    {
      preferredModel := model;
    }

    method SetAiModalOpen(open: bool)
      modifies this`isAiModalOpen
      ensures isAiModalOpen == open
    {
      isAiModalOpen := open;
    }

    method SetInfoModalOpen(open: bool)
      modifies this`isInfoModalOpen
      ensures isInfoModalOpen == open
    {
      isInfoModalOpen := open;
    }

    method SetGeneratedContent(content: Option<Generated>)
      modifies this`generatedContent
      ensures generatedContent == content
    {
      generatedContent := content;
    }

    // -------------------------------------------------------------------------
    // AI actions: a key guard, the busy flag raised, the call, the flag lowered.

    /** The guard and the first step of `fixJsonWithAI`: without a key, open the settings dialog. */
    method StartFix() returns (started: bool)
      modifies this`isAiModalOpen, this`isFixing
      ensures started == (apiKey != "")
      ensures started ==> isFixing && isAiModalOpen == old(isAiModalOpen)
      ensures !started ==> isAiModalOpen && isFixing == old(isFixing)
    {
      if apiKey == "" {
        isAiModalOpen := true;
        return false;
      }
      isFixing := true;
      return true;
    }

    /** After the call: a fixed text replaces the current one; the flag is lowered either way. */
    method FinishFix(outcome: Result<string>)
      modifies this`rawText, this`parsedData, this`error, this`isValid, this`isFixing
      ensures !isFixing
      ensures outcome.Success? ==> rawText == outcome.value && Synced()
      ensures outcome.Failure? ==>
        rawText == old(rawText) && parsedData == old(parsedData) && error == old(error) && isValid == old(isValid)
    {
      if outcome.Success? {
        SetText(outcome.value);
      }
      isFixing := false;
    }

    /**
     * `fixJsonWithAI`, with `fix` giving the outcome of the service call for the text,
     * key and preferred model read at the start. `busy` reports the flag during the call.
     */
    method FixJsonWithAI(fix: (string, string, string) -> Result<string>) returns (ghost busy: bool)
      modifies this`rawText, this`parsedData, this`error, this`isValid, this`isFixing, this`isAiModalOpen
      ensures old(apiKey) == "" ==>
        isAiModalOpen && isFixing == old(isFixing) && rawText == old(rawText) &&
        parsedData == old(parsedData) && error == old(error) && isValid == old(isValid)
      ensures old(apiKey) != "" ==> busy && !isFixing && isAiModalOpen == old(isAiModalOpen)
      ensures old(apiKey) != "" ==>
        match fix(old(rawText), old(apiKey), old(preferredModel))
        case Success(t) => rawText == t && Synced()
        case Failure(_) =>
          rawText == old(rawText) && parsedData == old(parsedData) && error == old(error) && isValid == old(isValid)
    {
      var started := StartFix();
      busy := isFixing;
      if !started {
        return;
      }
      var outcome := fix(rawText, apiKey, preferredModel);
      FinishFix(outcome);
    }

    /** The guard and first step shared by the schema and explanation actions. */
    method StartGenerating() returns (started: bool)
      modifies this`isAiModalOpen, this`isGenerating
      ensures started == (apiKey != "")
      ensures started ==> isGenerating && isAiModalOpen == old(isAiModalOpen)
      ensures !started ==> isAiModalOpen && isGenerating == old(isGenerating)
    {
      if apiKey == "" {
        isAiModalOpen := true;
        return false;
      }
      isGenerating := true;
      return true;
    }

    /** After the call: a result is shown under `title`; the flag is lowered either way. */
    method FinishGenerating(outcome: Result<string>, title: string)
      modifies this`generatedContent, this`isGenerating
      ensures !isGenerating
      ensures outcome.Success? ==> generatedContent == Some(Generated(title, outcome.value))
      ensures outcome.Failure? ==> generatedContent == old(generatedContent)
    {
      if outcome.Success? {
        generatedContent := Some(Generated(title, outcome.value));
      }
      isGenerating := false;
    }

    /** `generateSchemaWithAI` and `explainJsonWithAI`, which differ in the service and the title. */
    method GenerateWithAI(call: (string, string, string) -> Result<string>, title: string) returns (ghost busy: bool)
      modifies this`generatedContent, this`isGenerating, this`isAiModalOpen
      ensures old(apiKey) == "" ==>
        isAiModalOpen && isGenerating == old(isGenerating) && generatedContent == old(generatedContent)
      ensures old(apiKey) != "" ==> busy && !isGenerating && isAiModalOpen == old(isAiModalOpen)
      ensures old(apiKey) != "" ==>
        match call(rawText, apiKey, preferredModel)
        case Success(t) => generatedContent == Some(Generated(title, t))
        case Failure(_) => generatedContent == old(generatedContent)
    {
      var started := StartGenerating();
      busy := isGenerating;
      if !started {
        return;
      }
      var outcome := call(rawText, apiKey, preferredModel);
      FinishGenerating(outcome, title);
    }

    method GenerateSchemaWithAI(schema: (string, string, string) -> Result<string>) returns (ghost busy: bool)
      modifies this`generatedContent, this`isGenerating, this`isAiModalOpen
      ensures old(apiKey) == "" ==>
        isAiModalOpen && isGenerating == old(isGenerating) && generatedContent == old(generatedContent)
      ensures old(apiKey) != "" ==> busy && !isGenerating && isAiModalOpen == old(isAiModalOpen)
      ensures old(apiKey) != "" && schema(rawText, apiKey, preferredModel).Success? ==>
        generatedContent == Some(Generated(SchemaTitle, schema(rawText, apiKey, preferredModel).value))
      ensures schema(rawText, apiKey, preferredModel).Failure? ==> generatedContent == old(generatedContent)
    {
      busy := GenerateWithAI(schema, SchemaTitle);
    }

    method ExplainJsonWithAI(explain: (string, string, string) -> Result<string>) returns (ghost busy: bool)
      modifies this`generatedContent, this`isGenerating, this`isAiModalOpen
      ensures old(apiKey) == "" ==>
        isAiModalOpen && isGenerating == old(isGenerating) && generatedContent == old(generatedContent)
      ensures old(apiKey) != "" ==> busy && !isGenerating && isAiModalOpen == old(isAiModalOpen)
      ensures old(apiKey) != "" && explain(rawText, apiKey, preferredModel).Success? ==>
        generatedContent == Some(Generated(ExplanationTitle, explain(rawText, apiKey, preferredModel).value))
      ensures explain(rawText, apiKey, preferredModel).Failure? ==> generatedContent == old(generatedContent)
    {
      busy := GenerateWithAI(explain, ExplanationTitle);
    }

    // -------------------------------------------------------------------------
    // Persistence

    /** `partialize`: exactly the theme, key, preferred model, text and view mode. */
    function Partialize(): (p: Persisted)
      reads this
      ensures p.theme == theme && p.apiKey == apiKey && p.preferredModel == preferredModel
      ensures p.rawText == rawText && p.viewMode == viewMode
    {
      Persisted(theme, apiKey, preferredModel, rawText, viewMode)
    }

    /**
     * Loading a persisted state: its fields are merged in, then a non-empty text is run
     * through `setText`; an empty one leaves the derived fields as they were.
     */
    method Rehydrate(saved: Persisted)
      modifies this`theme, this`apiKey, this`preferredModel, this`rawText, this`viewMode,
               this`parsedData, this`error, this`isValid
      ensures Partialize() == saved
      ensures saved.rawText != "" ==> Synced()
      ensures saved.rawText == "" ==>
        parsedData == old(parsedData) && error == old(error) && isValid == old(isValid)
    {
      theme, apiKey, preferredModel, rawText, viewMode :=
        saved.theme, saved.apiKey, saved.preferredModel, saved.rawText, saved.viewMode;
      if rawText != "" {
        SetText(rawText);
      }
    }
  }
}
