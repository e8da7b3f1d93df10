/**
 * The translation loop (lambda.py:23-28): one provider call per text, in
 * order, appending each result; the first failing call raises and ends it.
 */
module TranslateFold {
  import opened Wrappers
  import opened Services

  type Provider = (string, string, string) -> Option<string>

  datatype FoldResult = Translated(translations: seq<string>) | FailedAt(index: nat)

  /** Reference definition of the loop, text by text from the front. */
  function Fold(texts: seq<string>, source: string, target: string, translate: Provider): (r: FoldResult)
    ensures r.Translated? ==> |r.translations| == |texts|
    ensures r.FailedAt? ==> r.index < |texts|
    decreases |texts|
  {
    if texts == [] then Translated([])
    else match translate(texts[0], source, target)
      case None => FailedAt(0)
      case Some(t) =>
        match Fold(texts[1..], source, target, translate)
        case Translated(ts) => Translated([t] + ts)
        case FailedAt(k) => FailedAt(k + 1)
  }

  /** How many provider calls the loop makes: all of them, or up to and including the failing one. */
  function CallCount(texts: seq<string>, result: FoldResult): (n: nat)
    requires result.FailedAt? ==> result.index < |texts|
    ensures n <= |texts|
  {
    match result
    case Translated(_) => |texts|
    case FailedAt(k) => k + 1
  }

  /** The first `n` provider calls for `texts`, in input order. */
  function Calls(texts: seq<string>, source: string, target: string, n: nat): (calls: seq<Effect>)
    requires n <= |texts|
    ensures |calls| == n
    ensures forall i :: 0 <= i < n ==> calls[i] == TranslateText(texts[i], source, target)
  {
    seq(n, i requires 0 <= i < n => TranslateText(texts[i], source, target))
  }

  /**
   * The loop succeeds exactly when every provider call succeeds, and then
   * its list is aligned with the input: same length, i-th entry the
   * provider's result for the i-th text.
   */
  lemma {:induction false} FoldSucceeds(texts: seq<string>, source: string, target: string, translate: Provider)
    ensures Fold(texts, source, target, translate).Translated?
        <==> forall i :: 0 <= i < |texts| ==> translate(texts[i], source, target).Some?
    ensures Fold(texts, source, target, translate).Translated? ==>
      var ts := Fold(texts, source, target, translate).translations;
      |ts| == |texts| &&
      forall i :: 0 <= i < |texts| ==> ts[i] == translate(texts[i], source, target).value
    decreases |texts|
  {
    if texts != [] {
      FoldSucceeds(texts[1..], source, target, translate);
      assert forall i :: 1 <= i < |texts| ==> texts[1..][i - 1] == texts[i];
    }
  }

  /**
   * The loop fails at `k` exactly when the k-th call is the first to fail:
   * every earlier call succeeded and the k-th did not.
   */
  lemma {:induction false} FoldFailsAtFirstFailure(texts: seq<string>, source: string, target: string, translate: Provider, k: nat)
    ensures Fold(texts, source, target, translate) == FailedAt(k)
        <==> k < |texts| && translate(texts[k], source, target).None?
             && forall j :: 0 <= j < k ==> translate(texts[j], source, target).Some?
    decreases |texts|
  {
    if texts != [] && k > 0 {
      FoldFailsAtFirstFailure(texts[1..], source, target, translate, k - 1);
      assert forall j :: 1 <= j < |texts| ==> texts[1..][j - 1] == texts[j];
    }
  }

  /** The loop of lambda.py:23-28, with the provider calls it makes. */
  method TranslateAll(texts: seq<string>, source: string, target: string, translate: Provider)
    returns (result: FoldResult, calls: seq<Effect>)
    ensures result == Fold(texts, source, target, translate)
    ensures calls == Calls(texts, source, target, CallCount(texts, result))
  {
    var translated: seq<string> := [];
    calls := [];
    var i := 0;
    while i < |texts|
      invariant 0 <= i <= |texts|
      invariant |translated| == i
      invariant forall j :: 0 <= j < i ==> translate(texts[j], source, target).Some?
      invariant forall j :: 0 <= j < i ==> translated[j] == translate(texts[j], source, target).value
      invariant calls == Calls(texts, source, target, i)
    {
      var r := translate(texts[i], source, target);
      calls := calls + [TranslateText(texts[i], source, target)];
      if r.None? {
        result := FailedAt(i);
        FoldFailsAtFirstFailure(texts, source, target, translate, i);
        return;
      }
      translated := translated + [r.value];
      i := i + 1;
    }
    result := Translated(translated);
    FoldSucceeds(texts, source, target, translate);
  }
}
