/** The template remover (`template_remover.py`): the templates attached to the core and expanded
    messages are dropped again, nothing else about the messages changes. */
module TemplateRemover {
  import opened Wrappers
  import opened Models

  /** A message whose template has been dropped. */
  predicate Bare(m: Message) {
    m.template.None?
  }

  /** `b` is `a` without its template: the template is gone and every other field is as it was. */
  predicate TemplateDropped(a: Message, b: Message) {
    Bare(b) && b.(template := a.template) == a
  }

  /** Each message of `after` is the message at the same position of `before` with its template
      dropped; the list keeps its length and order. */
  predicate AllDropped(before: seq<Message>, after: seq<Message>) {
    |after| == |before| && forall k :: 0 <= k < |before| ==> TemplateDropped(before[k], after[k])
  }

  /** The list with every template dropped, as a value. */
  function Dropped(ms: seq<Message>): (r: seq<Message>)
    ensures AllDropped(ms, r)
  {
    seq(|ms|, k requires 0 <= k < |ms| => ms[k].(template := None))
  }

  /** There is just one way to drop the templates of a list. */
  lemma DroppedUnique(before: seq<Message>, after: seq<Message>)
    requires AllDropped(before, after)
    ensures after == Dropped(before)
  {
    forall k | 0 <= k < |before| ensures after[k] == Dropped(before)[k] {
      assert after[k].(template := before[k].template) == before[k];
    }
  }

  /** Dropping the templates twice is dropping them once. */
  lemma DroppedIdempotent(ms: seq<Message>)
    ensures Dropped(Dropped(ms)) == Dropped(ms)
  {
  }

  /** A list whose messages have no template is left as it is. */
  lemma DroppedBare(ms: seq<Message>)
    requires forall k :: 0 <= k < |ms| ==> Bare(ms[k])
    ensures Dropped(ms) == ms
  {
    DroppedUnique(ms, ms);
  }

  /** The loop over one list. */
  method DropTemplates(ms: seq<Message>) returns (out: seq<Message>)
    ensures AllDropped(ms, out)
  {
    out := ms;
    for i := 0 to |ms|
      invariant |out| == |ms|
      invariant forall k :: 0 <= k < i ==> TemplateDropped(ms[k], out[k])
      invariant out[i..] == ms[i..]
    {
      assert out[i] == out[i..][0];
      out := out[i := out[i].(template := None)];
    }
  }

  /** `TemplateRemover.run`: the loop over both lists; both are returned, each message with its
      template dropped. */
  method Run(core: seq<Message>, expanded: seq<Message>) returns (c: seq<Message>, e: seq<Message>)
    ensures AllDropped(core, c) && AllDropped(expanded, e)
  {
    c := DropTemplates(core);
    e := DropTemplates(expanded);
  }
}
