/** Server configuration (config.rs): the base URL must end with a slash. */
module Config {
  import opened Wrappers

  /** serde's `invalid_value` error: what was found and what was expected. */
  datatype InvalidValue = InvalidValue(unexpected: string, expected: string)

  /** `deserialize_base_url`: the URL unchanged when it ends with '/', otherwise an error naming it. */
  function DeserializeBaseUrl(url: string): (r: Result<string, InvalidValue>)
    ensures r.Ok? <==> |url| > 0 && url[|url| - 1] == '/'
    ensures r.Ok? ==> r.value == url
    ensures r.Err? ==> r.error == InvalidValue(url, "a URL with a trailing slash")
  {
    if |url| > 0 && url[|url| - 1] == '/' then Ok(url)
    else Err(InvalidValue(url, "a URL with a trailing slash"))
  }

  /** Only the last character matters, and the empty string is refused. */
  lemma {:induction false} OnlyLastCharacterMatters(a: string, b: string, c: char)
    ensures DeserializeBaseUrl(a + [c]).Ok? <==> DeserializeBaseUrl(b + [c]).Ok?
    ensures DeserializeBaseUrl(a + [c]).Ok? <==> c == '/'
    ensures DeserializeBaseUrl("").Err?
  {
    assert (a + [c])[|a + [c]| - 1] == c;
    assert (b + [c])[|b + [c]| - 1] == c;
  }
}
