/**
  Values shared by the chat API, its clients and the two model wrappers:
  the citations object, chat messages and the generation options.
 */
module ChatTypes {
  import opened Wrappers

  /** One entry `n: source` of the citations object. */
  datatype Citation = Citation(number: int, source: string)

  /**
    A citations object is modelled by its entries in iteration order. Its keys
    are array indices, which JavaScript iterates in ascending order, so the
    entries of a well-formed object have strictly increasing numbers.
   */
  predicate InKeyOrder(citations: seq<Citation>) {
    forall i, j :: 0 <= i < j < |citations| ==> citations[i].number < citations[j].number
  }

  /** One `{ role, content }` message handed to a language model. */
  datatype Message = Message(role: string, content: string)

  /** The optional `{ temperature?, maxTokens? }` argument of both model wrappers. */
  datatype Options = Options(temperature: Option<real>, maxTokens: Option<int>)

  /** The settings actually sent to the model. */
  datatype Settings = Settings(temperature: real, maxTokens: int)

  /** The temperature both wrappers fall back to. */
  const DefaultTemperature: real := 0.1

  /**
    `options?.temperature || 0.1` and `options?.maxTokens || defaultMaxTokens`:
    a missing argument, a missing field and a zero value all fall back.
   */
  function Configure(options: Option<Options>, defaultMaxTokens: int): (s: Settings)
    requires defaultMaxTokens != 0
    ensures s.temperature != 0.0 && s.maxTokens != 0
    ensures options.Some? && options.value.temperature.Some? && options.value.temperature.value != 0.0
      ==> s.temperature == options.value.temperature.value
    ensures options.None? || options.value.temperature.None? || options.value.temperature.value == 0.0
      ==> s.temperature == DefaultTemperature
    ensures options.Some? && options.value.maxTokens.Some? && options.value.maxTokens.value != 0
      ==> s.maxTokens == options.value.maxTokens.value
    ensures options.None? || options.value.maxTokens.None? || options.value.maxTokens.value == 0
      ==> s.maxTokens == defaultMaxTokens
  {
    var t := if options.Some? then options.value.temperature else None;
    var m := if options.Some? then options.value.maxTokens else None;
    Settings(if t.Some? && t.value != 0.0 then t.value else DefaultTemperature,
             if m.Some? && m.value != 0 then m.value else defaultMaxTokens)
  }

  /** Passing the settings back as options reproduces them: defaults are fixed points. */
  lemma ConfigureFixedPoint(options: Option<Options>, defaultMaxTokens: int)
    requires defaultMaxTokens != 0
    ensures var s := Configure(options, defaultMaxTokens);
      Configure(Some(Options(Some(s.temperature), Some(s.maxTokens))), defaultMaxTokens) == s
  {
  }
}
