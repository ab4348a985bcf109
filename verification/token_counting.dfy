/**
 * `TokenCounter` (backend/utils/chunker.py:5-55) and the module-level
 * `count_tokens` wrapper (chunker.py:198-210).
 *
 * The tokenizer library is foreign: an `Encoding` carries its encoder as a
 * function value, and a `Registry` stands for the library's tables, which
 * map a model name to an encoding name and an encoding name to an encoding.
 * A TokenCounter never changes after construction, so it is a value.
 */
module TokenCounting {

  import opened Wrappers

  /** The model a TokenCounter uses when none is named. */
  const DefaultModel: string := "gpt-3.5-turbo"

  /** The encoding used for a model the library does not know. */
  const FallbackEncoding: string := "cl100k_base"

  /** Framing tokens added per chat message. */
  const TokensPerMessage: nat := 4

  /** Framing tokens added once per chat exchange. */
  const TokensPerExchange: nat := 3

  /** One encoding of the tokenizer library: its name and its encoder. */
  datatype Encoding = Encoding(name: string, encode: string -> seq<nat>)

  /** The tokenizer library's tables. */
  datatype Registry = Registry(modelEncodings: map<string, string>, encodings: map<string, Encoding>) {

    /** The fallback encoding exists, every model names an existing encoding, and names are keys. */
    predicate Valid() {
      FallbackEncoding in encodings
      && (forall m :: m in modelEncodings ==> modelEncodings[m] in encodings)
      && (forall n :: n in encodings ==> encodings[n].name == n)
    }
  }

  datatype TokenCounter = TokenCounter(model: string, encoding: Encoding)

  /** `encoding_for_model`: the model's encoding, or None where the library raises KeyError. */
  function EncodingForModel(reg: Registry, model: string): (r: Option<Encoding>)
    requires reg.Valid()
  {
    if model in reg.modelEncodings then Some(reg.encodings[reg.modelEncodings[model]]) else None
  }

  /** `TokenCounter.__init__`: an unknown model falls back to cl100k_base instead of failing. */
  function NewTokenCounter(reg: Registry, model: string := DefaultModel): (tc: TokenCounter)
    requires reg.Valid()
    ensures tc.model == model
    ensures model in reg.modelEncodings ==> tc.encoding == reg.encodings[reg.modelEncodings[model]]
    ensures model !in reg.modelEncodings ==> tc.encoding == reg.encodings[FallbackEncoding]
  {
    match EncodingForModel(reg, model)
    case Some(enc) => TokenCounter(model, enc)
    case None => TokenCounter(model, reg.encodings[FallbackEncoding])
  }

  /** `TokenCounter.count_tokens`: the number of tokens the encoder produces. */
  function CountTokens(tc: TokenCounter, text: string): nat {
    |tc.encoding.encode(text)|
  }

  /**
   * The module-level `count_tokens(text, model)`: the length of the encoding
   * of text under the model's encoding, or under cl100k_base for a model the
   * library does not know.
   */
  function CountTokensFor(reg: Registry, text: string, model: string := DefaultModel): (n: nat)
    requires reg.Valid()
    ensures model in reg.modelEncodings ==> n == |reg.encodings[reg.modelEncodings[model]].encode(text)|
    ensures model !in reg.modelEncodings ==> n == |reg.encodings[FallbackEncoding].encode(text)|
  {
    CountTokens(NewTokenCounter(reg, model), text)
  }

  // ---------------------------------------------------------------------
  // Chat messages
  // ---------------------------------------------------------------------

  /** A chat message: the dictionary with keys "role" and "content". */
  datatype Message = Message(role: string, content: string)

  /** What one message costs: its role, its content and the per-message framing. */
  function MessageTokens(tc: TokenCounter, m: Message): nat {
    CountTokens(tc, m.role) + CountTokens(tc, m.content) + TokensPerMessage
  }

  /** The sum of what the messages cost, without the per-exchange framing. */
  function MessagesTokens(tc: TokenCounter, ms: seq<Message>): nat {
    if ms == [] then 0 else MessageTokens(tc, ms[0]) + MessagesTokens(tc, ms[1..])
  }

  /** Appending one message adds exactly its role and content tokens and 4. */
  lemma {:induction false} MessagesTokensAppend(tc: TokenCounter, ms: seq<Message>, m: Message)
    ensures MessagesTokens(tc, ms + [m])
            == MessagesTokens(tc, ms) + CountTokens(tc, m.role) + CountTokens(tc, m.content) + 4
  {
    if ms != [] {
      assert (ms + [m])[1..] == ms[1..] + [m];
      MessagesTokensAppend(tc, ms[1..], m);
    }
  }

  /** Every message costs at least its framing. */
  lemma {:induction false} MessagesTokensAtLeastFraming(tc: TokenCounter, ms: seq<Message>)
    ensures MessagesTokens(tc, ms) >= TokensPerMessage * |ms|
  {
    if ms != [] {
      MessagesTokensAtLeastFraming(tc, ms[1..]);
    }
  }

  /**
   * `TokenCounter.count_tokens_in_messages`: 3 plus, for every message, its
   * role and content tokens plus 4; an empty list costs exactly 3.
   */
  method CountTokensInMessages(tc: TokenCounter, messages: seq<Message>) returns (total: nat)
    ensures total == TokensPerExchange + MessagesTokens(tc, messages)
    ensures total >= TokensPerExchange + TokensPerMessage * |messages|
  {
    total := 0;
    for i := 0 to |messages|
      invariant total == MessagesTokens(tc, messages[..i])
    {
      var message := messages[i];
      total := total + CountTokens(tc, message.role);
      total := total + CountTokens(tc, message.content);
      total := total + TokensPerMessage;
      MessagesTokensAppend(tc, messages[..i], message);
      assert messages[..i + 1] == messages[..i] + [message];
    }
    assert messages[..|messages|] == messages;
    total := total + TokensPerExchange;
    MessagesTokensAtLeastFraming(tc, messages);
  }
}
