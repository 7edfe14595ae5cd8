# nanobot: the OpenAI-compatible provider's request shaping

This project models the OpenAI-compatible provider of nanobot
(`nanobot/providers/custom_provider.py`). It talks to an endpoint directly,
without a routing library in between. The model has three parts:

- **The sanitising pass** (`_prevent_empty_text_blocks`). Most OpenAI-compatible
  endpoints reject a request holding an empty-string text block. So before a
  request is sent, every message is checked. Content `""` becomes `None` for an
  assistant turn that carries tool calls, and `"(empty)"` otherwise. List
  content loses its empty blocks of type `text`, `input_text` and `output_text`.
  A list left empty is replaced the same way. A rewritten message is a copy in
  which only `content` differs. Every other message passes through as it is.
- **Request building in `chat`.** The model falls back to the provider's
  default. `max_tokens` is raised to at least 1. Tools, with
  `tool_choice = "auto"`, are attached only when the tool list is non-empty.
- **Response parsing in `_parse`.** A missing finish reason becomes `"stop"`.
  Missing usage becomes an empty map. Missing tool calls become an empty list.

Messages are Python dicts of JSON-like values. They are modelled as
`map<string, Value>` (`PyValues.Value`: `None`, bool, int, float, str, list,
dict). So "only `content` changes" is a statement about every other key of the
map. The model also keeps the one exception the pass can raise.
`item.get("type") in {...}` hashes the "type" value of each dict item, and
hashing a list or dict raises `TypeError: unhashable type: ...`. So the pass
returns a `Result`. `chat` runs the pass before its `try` block, so this error
escapes `chat` (`Chat` returns `Failure`). An `Exception` raised by the client
call or by `_parse` is caught and becomes an error response. A `BaseException`
that is not an `Exception` (such as `asyncio.CancelledError`) is not caught by
`except Exception`, so it escapes `chat` too.

Modules:
- `Results` (`results.dfy`): `Option` and `Result`.
- `PyValues` (`py_values.dfy`): the value type and the Python semantics the
  provider relies on. These are `dict.get`, truthiness, hashability and the
  `TypeError` text.
- `EmptyTextBlocks` (`empty_text_blocks.dfy`): the sanitising pass. The
  specification functions are `FilterItems`, `Sanitized` and `SanitizeAll`, with
  lemmas about them. `PreventEmptyTextBlocks` is the imperative loop, proved
  equal to `SanitizeAll`.
- `Provider` (`custom_provider.dfy`): the endpoint's reply records, `Parse`, and
  the `CustomProvider` configuration with `BuildRequest` and `Chat`.
  `GetDefaultModel` models `get_default_model`
  (`nanobot/providers/custom_provider.py:50-51`). It only returns the
  configured default model, so it carries no contract and has no row below.
  What it means for a request is stated by `BuildRequest`'s contract, which
  names it.

## Model

| member | source | states |
|---|---|---|
| `EmptyTextBlocks.FilterItems` | nanobot/providers/custom_provider.py:77-82 | The item filter succeeds exactly when no dict item has an unhashable "type". It never grows the list. Every kept item comes from the input and is not an empty text block. |
| `EmptyTextBlocks.FilterItemsFirstError` | nanobot/providers/custom_provider.py:77-82 | When the filter raises, the error is the `TypeError` of the first dict item whose "type" is unhashable. |
| `EmptyTextBlocks.FilterItemsKeepsExactly` | nanobot/providers/custom_provider.py:77-82 | The filter keeps exactly the items that are not empty text blocks: each such item keeps its multiplicity, and empty text blocks occur zero times. |
| `EmptyTextBlocks.FilterItemsUnchangedIff` | nanobot/providers/custom_provider.py:77-83 | The filtered list equals the content (so `filtered != content` is false) exactly when no item is an empty text block, in both directions. |
| `EmptyTextBlocks.FilterItemsAppend` | nanobot/providers/custom_provider.py:77-82 | The filter keeps the relative order of items: filtering `a + b` gives the filtered `a` followed by the filtered `b`. |
| `EmptyTextBlocks.FilterItemsIdempotent` | nanobot/providers/custom_provider.py:77-82 | Filtering the filter's output changes nothing. |
| `EmptyTextBlocks.Sanitized` | nanobot/providers/custom_provider.py:63-94 | For one message: it raises exactly when list content holds a dict item with an unhashable "type". The output has the same keys, and every key other than "content" keeps its value. Content `""` becomes `None` for an assistant with truthy `tool_calls`, and `"(empty)"` otherwise. List content becomes the filtered list. A list the filter emptied (and that was not already empty) is replaced as `""` is. |
| `EmptyTextBlocks.SanitizedRaisesFirstProbeError` | nanobot/providers/custom_provider.py:76-82 | A message that raises does so with the error of its first content item whose "type" is unhashable. |
| `EmptyTextBlocks.SanitizedIsClean` | nanobot/providers/custom_provider.py:55-94 | The output message has no `""` content and no empty text block in list content. It also holds no item that would make a second pass raise. |
| `EmptyTextBlocks.SanitizedUnchangedIff` | nanobot/providers/custom_provider.py:83-94 | A message comes out unchanged exactly when it is already clean. This covers `None`, other types and lists without empty text blocks. |
| `EmptyTextBlocks.SanitizedIdempotent` | nanobot/providers/custom_provider.py:61-95 | Sanitising a sanitised message gives the same result. |
| `EmptyTextBlocks.SanitizeAll` | nanobot/providers/custom_provider.py:61-95 | The pass succeeds exactly when every message does. On success the output has one message per input message, in the same order, and each is that message sanitised. |
| `EmptyTextBlocks.SanitizeAllFirstError` | nanobot/providers/custom_provider.py:61-95 | A failing pass raises the error of the first message that raises. Every message before it succeeds. |
| `EmptyTextBlocks.PrefixFailurePersists` | nanobot/providers/custom_provider.py:62-82 | Once the messages up to some point raise, the whole pass raises the same error. The loop does not go on past an exception. |
| `EmptyTextBlocks.SanitizeAllIsClean` | nanobot/providers/custom_provider.py:55-59 | The doc-comment's promise holds: no message the pass returns has `""` content or an empty text block. |
| `EmptyTextBlocks.SanitizeAllIdempotent` | nanobot/providers/custom_provider.py:61-95 | Running the pass on its own output returns that output. |
| `EmptyTextBlocks.PreventEmptyTextBlocks` | nanobot/providers/custom_provider.py:53-95 | The loop that appends each message or its cleaned copy to `patched` computes exactly `SanitizeAll`. On success it returns one clean message per input message. |
| `Provider.Parse` | nanobot/providers/custom_provider.py:35-48 | An empty choice list raises `list index out of range`. Otherwise: the finish reason is the choice's own when non-empty and `"stop"` otherwise, so it is never empty. Usage is the three token counts, and is empty exactly when the reply has no usage. Content and reasoning content are taken from the message. Tool calls map one to one, in order, keeping id and name. String arguments become `Repaired` with that text (the lenient JSON parser's input). Any other arguments are kept as they came (`Verbatim`). |
| `Provider.CustomProvider.BuildRequest` | nanobot/providers/custom_provider.py:22-29 | The request fails exactly when sanitising raises, with the same error. The request has keys model, messages, max_tokens and temperature, plus tools and tool_choice exactly when tools are given. The model is the caller's when non-empty, else the default. `max_tokens` is `max(1, max_tokens)`: the caller's value when that is at least 1, and 1 otherwise. The messages are the sanitised ones, one dict per input message, in order. The tools are passed with `tool_choice = "auto"`. |
| `Provider.CustomProvider.Chat` | nanobot/providers/custom_provider.py:20-33 | A `TypeError` from sanitising escapes. Otherwise the result depends on the reply. A `BaseException` that is not an `Exception` (`asyncio.CancelledError`, `KeyboardInterrupt`, `SystemExit`) escapes. An `Exception` raised by the call gives `"Error: <message>"` with finish reason `"error"`. A reply with no choice gives the `IndexError` message the same way. Any other reply gives the parsed response. |

## Left out

- The network call (`AsyncOpenAI`'s `chat.completions.create`) is not modelled. What it did is the `reply` parameter of `Chat`: it returned a response, raised an `Exception` with a message, or raised a `BaseException` that is not an `Exception`. The request built is not fed to it.
- `json_repair.loads` is a foreign library. A string of tool-call arguments becomes `Repaired(text)`, which keeps the text it would have parsed. The model assumes the library does not raise.
- The text of the unhashable-type `TypeError` (`PyValues.UnhashableType`, fixed by `FilterItemsFirstError` and `SanitizedRaisesFirstProbeError`) is `unhashable type: '<name>'`, the wording of CPython 3.13 and earlier. Later CPython versions word the set-membership error differently, and that wording is not modelled.
- `temperature` is a float that is passed through unchanged (as `VFloat`). Nothing is proved about it beyond that.
- The `LLMResponse` and `ToolCallRequest` records and their defaults come from `nanobot/providers/base.py`, which is not part of this model. The error response assumes the defaults are no tool calls, empty usage and no reasoning content.
- `__init__` only stores its arguments (the defaults `"no-key"`, `"http://localhost:8000/v1"` and `"default"` are kept) and builds the client; the base-class constructor is not part of this model.
- Python object identity and aliasing are not captured. The source returns the same dict object for a message it passes through, and makes a shallow copy for one it rewrites. Nested values are shared with the input. The model works on values, so the input can never be modified.
- Dict key order is not modelled. `dict(msg)` keeps insertion order and the assignment to "content" keeps that key's position. Maps have no order.
- Values other than JSON-like ones are left out. This includes objects with their own `__eq__`, `__hash__` or `__bool__`, dict subclasses, tuples and non-string dict keys. A message is assumed to be a dict, as its type annotation says.
- `Provider.Parse` does not model `usage` fields that are absent or `None` inside a present usage object. The token counts are integers here.
- `nanobot/channels/matrix.py` (the Matrix channel adapter) is not part of this model. It is asynchronous I/O, callback registration and a cancellation-driven sync loop. Its only decision is a two-line self-message guard.
- Behaviour asserted only in `tests/test_matrix_channel.py` is not part of this model. This includes room admission policies, typing indicators, invite handling and formatted bodies. The Matrix channel source that implements it is not part of this model either.
