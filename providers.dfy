/** The four provider tags a model configuration can carry, and the string
    form in which they travel to the proxy. */
module Providers {
  import opened Common

  datatype Provider = OpenAI | Gemini | Custom | Exo

  function Tag(p: Provider): string {
    match p
    case OpenAI => "openai"
    case Gemini => "gemini"
    case Custom => "custom"
    case Exo => "exo"
  }

  /** The provider a tag names, if any: a recognised tag is exactly the tag
      of the provider returned, and an unrecognised one is no provider's tag. */
  function ParseProvider(tag: string): (r: Option<Provider>)
    ensures r.Some? ==> Tag(r.value) == tag
    ensures r.None? ==> forall p: Provider :: Tag(p) != tag
  {
    if tag == "openai" then Some(OpenAI)
    else if tag == "gemini" then Some(Gemini)
    else if tag == "custom" then Some(Custom)
    else if tag == "exo" then Some(Exo)
    else None
  }

  /** The two self-hosted tags name self-hosted providers. */
  lemma SelfHostedTag(tag: string)
    requires tag == "custom" || tag == "exo"
    ensures ParseProvider(tag).Some? && SelfHosted(ParseProvider(tag).value)
  {
    assert "custom"[0] != "openai"[0] && "custom"[0] != "gemini"[0];
    assert |"exo"| != |"openai"| && |"exo"| != |"gemini"| && |"exo"| != |"custom"|;
  }

  /** The providers whose replies are relayed as an event stream
      (`openai`, `custom` and `exo`). */
  predicate Streams(p: Provider) {
    p != Gemini
  }

  /** The self-hosted providers, addressed through a configured base URL. */
  predicate SelfHosted(p: Provider) {
    p == Custom || p == Exo
  }
}
