/**
 * The request-sanitising pass of the OpenAI-compatible provider
 * (`CustomProvider._prevent_empty_text_blocks`). Most OpenAI-compatible
 * providers reject a request holding an empty-string text block, so before a
 * request is sent every message whose content is `""`, or whose list content
 * holds empty text blocks, is replaced by a shallow copy with cleaned content.
 */
module EmptyTextBlocks {
  import opened PyValues
  import opened Results

  /** A chat message: a dict with keys such as "role", "content" and "tool_calls". */
  type Message = Dict

  /** The block types whose empty "text" is filtered out. */
  const TextBlockTypes: set<string> := {"text", "input_text", "output_text"}

  /** What empty content becomes unless the message is an assistant's tool-call turn. */
  const EmptyPlaceholder: string := "(empty)"

  /**
   * `item.get("type") in {...}` is evaluated only for dict items (the `and`
   * short-circuits), and hashing an unhashable "type" value raises.
   */
  predicate ProbeRaises(item: Value) {
    item.VDict? && !Hashable(Get(item.entries, "type"))
  }

  function ProbeError(item: Value): TypeError
    requires ProbeRaises(item)
  {
    UnhashableType(Get(item.entries, "type"))
  }

  /** A dict block of one of the text types whose "text" is the empty string. */
  predicate IsEmptyTextBlock(item: Value) {
    && item.VDict?
    && Get(item.entries, "type").VStr?
    && Get(item.entries, "type").s in TextBlockTypes
    && Get(item.entries, "text") == VStr("")
  }

  /** An assistant turn that carries tool calls may have no content at all. */
  predicate IsAssistantWithToolCalls(msg: Message) {
    Get(msg, "role") == VStr("assistant") && Truthy(Get(msg, "tool_calls"))
  }

  /** The content that replaces content left empty. */
  function EmptyReplacement(msg: Message): Value {
    if IsAssistantWithToolCalls(msg) then VNone else VStr(EmptyPlaceholder)
  }

  /** List content one of whose items makes the type probe raise. */
  predicate ContentProbeRaises(msg: Message) {
    var content := Get(msg, "content");
    content.VList? && exists i | 0 <= i < |content.items| :: ProbeRaises(content.items[i])
  }

  /** What the provider accepts: no `""` content and no empty text block in list content. */
  predicate IsClean(msg: Message) {
    var content := Get(msg, "content");
    && content != VStr("")
    && (content.VList? ==> forall i | 0 <= i < |content.items| :: !IsEmptyTextBlock(content.items[i]))
  }

  /**
   * The list comprehension that drops empty text blocks. It keeps exactly the
   * items that are not empty text blocks, with their multiplicities, and
   * raises at the first dict item whose "type" is unhashable.
   */
  function FilterItems(items: seq<Value>): (r: Result<seq<Value>, TypeError>)
    ensures r.Success? <==> forall i | 0 <= i < |items| :: !ProbeRaises(items[i])
    ensures r.Success? ==> |r.value| <= |items|
    ensures r.Success? ==> forall x | x in r.value :: x in items && !IsEmptyTextBlock(x)
    decreases |items|
  {
    if items == [] then Success([])
    else if ProbeRaises(items[0]) then Failure(ProbeError(items[0]))
    else
      match FilterItems(items[1..])
      case Failure(e) => Failure(e)
      case Success(kept) =>
        Success(if IsEmptyTextBlock(items[0]) then kept else [items[0]] + kept)
  }

  /** The filter raises the error of the first dict item whose "type" is unhashable. */
  lemma {:induction false} FilterItemsFirstError(items: seq<Value>)
    requires FilterItems(items).Failure?
    ensures exists i | 0 <= i < |items| ::
      && ProbeRaises(items[i])
      && FilterItems(items).error == ProbeError(items[i])
      && forall j | 0 <= j < i :: !ProbeRaises(items[j])
  {
    if !ProbeRaises(items[0]) {
      FilterItemsFirstError(items[1..]);
      var i :| 0 <= i < |items[1..]|
        && ProbeRaises(items[1..][i])
        && FilterItems(items[1..]).error == ProbeError(items[1..][i])
        && forall j | 0 <= j < i :: !ProbeRaises(items[1..][j]);
      assert ProbeRaises(items[i + 1]);
      assert forall j | 0 <= j < i + 1 :: !ProbeRaises(items[j]) by {
        forall j | 0 <= j < i + 1 ensures !ProbeRaises(items[j]) {
          if j > 0 { assert items[j] == items[1..][j - 1]; }
        }
      }
    }
  }

  /**
   * The filter keeps exactly the items that are not empty text blocks: every
   * other item keeps its multiplicity and no empty text block survives.
   */
  lemma {:induction false} FilterItemsKeepsExactly(items: seq<Value>, x: Value)
    requires FilterItems(items).Success?
    ensures multiset(FilterItems(items).value)[x] == if IsEmptyTextBlock(x) then 0 else multiset(items)[x]
  {
    if items != [] {
      FilterItemsKeepsExactly(items[1..], x);
      var kept := FilterItems(items[1..]).value;
      assert items == [items[0]] + items[1..];
      assert multiset(items) == multiset{items[0]} + multiset(items[1..]);
      if !IsEmptyTextBlock(items[0]) {
        assert multiset([items[0]] + kept) == multiset{items[0]} + multiset(kept);
      }
    }
  }

  /** The filter returns its input exactly when no item is an empty text block. */
  lemma {:induction false} FilterItemsUnchangedIff(items: seq<Value>)
    requires FilterItems(items).Success?
    ensures FilterItems(items).value == items <==> forall i | 0 <= i < |items| :: !IsEmptyTextBlock(items[i])
  {
    if items != [] {
      FilterItemsUnchangedIff(items[1..]);
      assert items == [items[0]] + items[1..];
      if !IsEmptyTextBlock(items[0]) && (forall i | 0 <= i < |items[1..]| :: !IsEmptyTextBlock(items[1..][i])) {
        assert forall i | 0 <= i < |items| :: !IsEmptyTextBlock(items[i]) by {
          forall i | 0 <= i < |items| ensures !IsEmptyTextBlock(items[i]) {
            if i > 0 { assert items[i] == items[1..][i - 1]; }
          }
        }
      }
    }
  }

  /** The filter preserves order: filtering a concatenation concatenates the filtered parts. */
  lemma {:induction false} FilterItemsAppend(a: seq<Value>, b: seq<Value>)
    requires FilterItems(a + b).Success?
    ensures FilterItems(a).Success? && FilterItems(b).Success?
    ensures FilterItems(a + b).value == FilterItems(a).value + FilterItems(b).value
  {
    if a == [] {
      assert a + b == b;
    } else {
      var ab := a + b;
      assert ab[0] == a[0] && ab[1..] == a[1..] + b;
      FilterItemsAppend(a[1..], b);
      var tail, rest := FilterItems(a[1..]).value, FilterItems(b).value;
      assert FilterItems(ab[1..]).value == tail + rest;
      if !IsEmptyTextBlock(a[0]) {
        assert [a[0]] + (tail + rest) == ([a[0]] + tail) + rest;
      }
    }
  }

  /** Filtering is idempotent: what it keeps passes through it unchanged. */
  lemma FilterItemsIdempotent(items: seq<Value>)
    requires FilterItems(items).Success?
    ensures FilterItems(FilterItems(items).value) == FilterItems(items)
  {
    var kept := FilterItems(items).value;
    FilterItemsUnchangedIff(kept);
  }

  /**
   * One message through the loop body of the sanitising pass. A message is
   * rewritten, on a copy that differs only in "content", when its content is
   * `""` or a list from which empty text blocks were removed.
   */
  function Sanitized(msg: Message): (r: Result<Message, TypeError>)
    ensures r.Success? <==> !ContentProbeRaises(msg)
    ensures r.Success? ==> r.value.Keys == msg.Keys
    ensures r.Success? ==> forall k | k in msg && k != "content" :: r.value[k] == msg[k]
    ensures Get(msg, "content") == VStr("") ==>
      r.Success? &&
      Get(r.value, "content") == if IsAssistantWithToolCalls(msg) then VNone else VStr(EmptyPlaceholder)
    ensures Get(msg, "content").VList? && r.Success? ==>
      var items := Get(msg, "content").items;
      var kept := FilterItems(items).value;
      Get(r.value, "content") ==
        if kept == [] && items != [] then EmptyReplacement(msg) else VList(kept)
  {
    var content := Get(msg, "content");
    if content == VStr("") then
      Success(msg["content" := EmptyReplacement(msg)])
    else if content.VList? then
      match FilterItems(content.items)
      case Failure(e) => Failure(e)
      case Success(kept) =>
        if kept != content.items then
          Success(msg["content" := if kept != [] then VList(kept) else EmptyReplacement(msg)])
        else
          Success(msg)
    else
      Success(msg)
  }

  /** A message that raises does so with the error of the first offending content item. */
  lemma SanitizedRaisesFirstProbeError(msg: Message)
    requires Sanitized(msg).Failure?
    ensures var items := Get(msg, "content").items;
      exists i | 0 <= i < |items| ::
        && ProbeRaises(items[i])
        && Sanitized(msg).error == ProbeError(items[i])
        && forall j | 0 <= j < i :: !ProbeRaises(items[j])
  {
    FilterItemsFirstError(Get(msg, "content").items);
  }

  /** What comes out is clean, and sanitising it again cannot raise. */
  lemma SanitizedIsClean(msg: Message)
    requires Sanitized(msg).Success?
    ensures IsClean(Sanitized(msg).value)
    ensures !ContentProbeRaises(Sanitized(msg).value)
  {
    var content := Get(msg, "content");
    if content.VList? {
      var kept := FilterItems(content.items).value;
      if kept == content.items {
        FilterItemsUnchangedIff(content.items);
      }
    }
  }

  /** A message passes through unchanged exactly when it is already clean. */
  lemma SanitizedUnchangedIff(msg: Message)
    requires Sanitized(msg).Success?
    ensures Sanitized(msg).value == msg <==> IsClean(msg)
  {
    var content := Get(msg, "content");
    if content.VList? {
      FilterItemsUnchangedIff(content.items);
    }
  }

  /** Sanitising a sanitised message changes nothing. */
  lemma SanitizedIdempotent(msg: Message)
    requires Sanitized(msg).Success?
    ensures Sanitized(Sanitized(msg).value) == Sanitized(msg)
  {
    var out := Sanitized(msg).value;
    SanitizedIsClean(msg);
    SanitizedUnchangedIff(out);
  }

  /**
   * The whole pass over a list of messages: one output message per input
   * message, in order; the first message that raises aborts the pass.
   */
  function SanitizeAll(messages: seq<Message>): (r: Result<seq<Message>, TypeError>)
    ensures r.Success? <==> forall i | 0 <= i < |messages| :: Sanitized(messages[i]).Success?
    ensures r.Success? ==> |r.value| == |messages|
    ensures r.Success? ==> forall i | 0 <= i < |messages| :: Sanitized(messages[i]) == Success(r.value[i])
    decreases |messages|
  {
    if messages == [] then Success([])
    else
      var n := |messages| - 1;
      match SanitizeAll(messages[..n])
      case Failure(e) => Failure(e)
      case Success(done) =>
        match Sanitized(messages[n])
        case Failure(e) => Failure(e)
        case Success(last) => Success(done + [last])
  }

  /** The pass raises the error of the first message that raises. */
  lemma {:induction false} SanitizeAllFirstError(messages: seq<Message>)
    requires SanitizeAll(messages).Failure?
    ensures exists i | 0 <= i < |messages| ::
      && Sanitized(messages[i]) == Failure(SanitizeAll(messages).error)
      && forall j | 0 <= j < i :: Sanitized(messages[j]).Success?
  {
    var n := |messages| - 1;
    var prefix := messages[..n];
    if SanitizeAll(prefix).Failure? {
      SanitizeAllFirstError(prefix);
      var i :| 0 <= i < |prefix|
        && Sanitized(prefix[i]) == Failure(SanitizeAll(prefix).error)
        && forall j | 0 <= j < i :: Sanitized(prefix[j]).Success?;
      assert prefix[i] == messages[i];
      assert forall j | 0 <= j < i :: prefix[j] == messages[j];
    } else {
      assert forall j | 0 <= j < n :: prefix[j] == messages[j];
    }
  }

  /** No empty text block reaches the provider: every message sent is clean. */
  lemma SanitizeAllIsClean(messages: seq<Message>)
    requires SanitizeAll(messages).Success?
    ensures forall i | 0 <= i < |messages| :: IsClean(SanitizeAll(messages).value[i])
  {
    forall i | 0 <= i < |messages| ensures IsClean(SanitizeAll(messages).value[i]) {
      SanitizedIsClean(messages[i]);
    }
  }

  /** Running the pass on its own output gives that output back. */
  lemma SanitizeAllIdempotent(messages: seq<Message>)
    requires SanitizeAll(messages).Success?
    ensures SanitizeAll(SanitizeAll(messages).value) == SanitizeAll(messages)
  {
    var out := SanitizeAll(messages).value;
    forall i | 0 <= i < |out| ensures Sanitized(out[i]) == Success(out[i]) {
      SanitizedIdempotent(messages[i]);
    }
    assert SanitizeAll(out).value == out;
  }

  /** Once a prefix of the messages raises, the whole pass raises the same error. */
  lemma {:induction false} PrefixFailurePersists(messages: seq<Message>, k: nat)
    requires k <= |messages|
    requires SanitizeAll(messages[..k]).Failure?
    ensures SanitizeAll(messages) == SanitizeAll(messages[..k])
    decreases |messages| - k
  {
    if k == |messages| {
      assert messages[..k] == messages;
    } else {
      var n := |messages| - 1;
      var prefix := messages[..n];
      assert prefix[..k] == messages[..k];
      PrefixFailurePersists(prefix, k);
      LastStepFails(messages);
    }
  }

  /** One step of the pass: a failing prefix makes the whole pass fail with its error. */
  lemma LastStepFails(messages: seq<Message>)
    requires messages != []
    requires SanitizeAll(messages[..|messages| - 1]).Failure?
    ensures SanitizeAll(messages) == SanitizeAll(messages[..|messages| - 1])
  {
  }

  /**
   * `_prevent_empty_text_blocks`: the loop that appends each message, or its
   * cleaned copy, to the accumulator `patched`.
   */
  method PreventEmptyTextBlocks(messages: seq<Message>) returns (r: Result<seq<Message>, TypeError>)
    ensures r == SanitizeAll(messages)
    ensures r.Success? ==> |r.value| == |messages| && forall i | 0 <= i < |r.value| :: IsClean(r.value[i])
  {
    var patched: seq<Message> := [];
    for i := 0 to |messages|
      invariant SanitizeAll(messages[..i]) == Success(patched)
    {
      assert messages[..i + 1][..i] == messages[..i];
      var msg := messages[i];
      var content := Get(msg, "content");

      if content == VStr("") {
        var clean := msg["content" := if IsAssistantWithToolCalls(msg) then VNone else VStr(EmptyPlaceholder)];
        patched := patched + [clean];
        continue;
      }

      if content.VList? {
        var filtered := FilterItems(content.items);
        if filtered.Failure? {
          PrefixFailurePersists(messages, i + 1);
          return Failure(filtered.error);
        }
        if filtered.value != content.items {
          var clean := msg;
          if filtered.value != [] {
            clean := clean["content" := VList(filtered.value)];
          } else if IsAssistantWithToolCalls(msg) {
            clean := clean["content" := VNone];
          } else {
            clean := clean["content" := VStr(EmptyPlaceholder)];
          }
          patched := patched + [clean];
          continue;
        }
      }

      patched := patched + [msg];
    }
    assert messages[..|messages|] == messages;
    r := Success(patched);
    SanitizeAllIsClean(messages);
  }
}
