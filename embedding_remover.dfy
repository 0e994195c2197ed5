/** The embedding remover (`embedding_remover.py`): the messages lose their templates and the
    embeddings some document planners attach; the document plan is passed through. */
module EmbeddingRemover {
  import opened Wrappers
  import opened Models

  /** A message with neither a template nor an embedding. */
  predicate Stripped(m: Message) {
    m.template.None? && m.embedding.None?
  }

  /** `b` is `a` stripped: template and embedding gone, every other field as it was. */
  predicate StrippedOf(a: Message, b: Message) {
    Stripped(b) && b.(template := a.template, embedding := a.embedding) == a
  }

  predicate AllStripped(before: seq<Message>, after: seq<Message>) {
    |after| == |before| && forall k :: 0 <= k < |before| ==> StrippedOf(before[k], after[k])
  }

  /** The list stripped, as a value. */
  function Strip(ms: seq<Message>): (r: seq<Message>)
    ensures AllStripped(ms, r)
  {
    seq(|ms|, k requires 0 <= k < |ms| => ms[k].(template := None, embedding := None))
  }

  /** There is just one way to strip a list. */
  lemma StripUnique(before: seq<Message>, after: seq<Message>)
    requires AllStripped(before, after)
    ensures after == Strip(before)
  {
    forall k | 0 <= k < |before| ensures after[k] == Strip(before)[k] {
      assert after[k].(template := before[k].template, embedding := before[k].embedding) == before[k];
    }
  }

  /** Stripping twice is stripping once. */
  lemma StripIdempotent(ms: seq<Message>)
    ensures Strip(Strip(ms)) == Strip(ms)
  {
  }

  /** A message without an embedding only loses its template. */
  lemma StripWithoutEmbedding(ms: seq<Message>, k: nat)
    requires k < |ms| && ms[k].embedding.None?
    ensures Strip(ms)[k] == ms[k].(template := None)
  {
  }

  /** `EmbeddingRemover.run`: the loop over `messages`; the document plan is returned as given. */
  method Run<P>(documentPlan: P, messages: seq<Message>) returns (plan: P, out: seq<Message>)
    ensures plan == documentPlan && AllStripped(messages, out)
  {
    out := messages;
    for i := 0 to |messages|
      invariant |out| == |messages|
      invariant forall k :: 0 <= k < i ==> StrippedOf(messages[k], out[k])
      invariant out[i..] == messages[i..]
    {
      assert out[i] == out[i..][0];
      var m := out[i].(template := None);
      if m.embedding.Some? {
        m := m.(embedding := None);
      }
      out := out[i := m];
    }
    plan := documentPlan;
  }
}
