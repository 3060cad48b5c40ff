/**
 * The home page's preview of one popular category (`renderTierPreview`):
 * the first non-empty tier among S, A and B, otherwise C, and at most three
 * of its items; nothing when that tier is empty.
 *
 * The page reads `tier.tieredItems.S` without a check, but the popular-tiers
 * route leaves `tieredItems` out of an entry whose items read failed.
 * `RenderTierPreviewAsWritten` keeps that behaviour (the access throws, shown
 * as `Crash`); `RenderTierPreview` is the corrected preview, which shows
 * nothing for such an entry.
 */
module HomePage {
  import opened Entities
  import opened DataStore
  import opened Tiers
  import opened PopularTiersRoute

  const PreviewLimit := 3

  /** What a preview renders. */
  datatype Preview = Nothing | Shown(tier: Tier, items: seq<Item>) | Crash

  /** `S.length > 0 ? 'S' : A.length > 0 ? 'A' : B.length > 0 ? 'B' : 'C'`. */
  function PreviewTier(bs: Buckets): (t: Tier)
    ensures t != D
    ensures t == S <==> |bs.s| > 0
    ensures t == A <==> |bs.s| == 0 && |bs.a| > 0
    ensures t == B <==> |bs.s| == 0 && |bs.a| == 0 && |bs.b| > 0
    ensures t == C <==> |bs.s| == 0 && |bs.a| == 0 && |bs.b| == 0
  {
    if |bs.s| > 0 then S else if |bs.a| > 0 then A else if |bs.b| > 0 then B else C
  }

  /** The preview of a set of buckets: the first three of the chosen tier, or nothing. */
  function PreviewOf(bs: Buckets): (p: Preview)
    ensures p != Crash
    ensures p == Nothing <==> |Bucket(bs, PreviewTier(bs))| == 0
    ensures p.Shown? ==> p.tier == PreviewTier(bs) && p.tier != D
                         && 0 < |p.items| && p.items <= Bucket(bs, p.tier)
                         && |p.items| == if |Bucket(bs, p.tier)| <= PreviewLimit then |Bucket(bs, p.tier)| else PreviewLimit
  {
    var t := PreviewTier(bs);
    var items := Take(Bucket(bs, t), PreviewLimit);
    if |items| == 0 then Nothing else Shown(t, items)
  }

  /** The preview as the page computes it, including the failing field access. */
  function RenderTierPreviewAsWritten(e: PopularTier): (p: Preview)
    ensures p == Crash <==> e.tieredItems.None?
  {
    if e.tieredItems.None? then Crash else PreviewOf(e.tieredItems.value)
  }

  /** The corrected preview: an entry without tiers shows nothing. */
  function RenderTierPreview(e: PopularTier): (p: Preview)
    ensures p != Crash
    ensures e.tieredItems.None? ==> p == Nothing
    ensures e.tieredItems.Some? ==> p == RenderTierPreviewAsWritten(e)
  {
    if e.tieredItems.None? then Nothing else PreviewOf(e.tieredItems.value)
  }

  /** The route's entry for a category whose items read failed crashes the page as written. */
  lemma FailedEntryCrashes(items: seq<Item>, c: Category)
    ensures RenderTierPreviewAsWritten(Entry(items, c, true)) == Crash
    ensures RenderTierPreview(Entry(items, c, true)) == Nothing
  {
  }

  /**
   * Against the classifier: a category with at least two distinct counts
   * previews its S tier; one whose counts are all equal renders nothing,
   * as everything is in D.
   */
  lemma PreviewOfClassified(items: seq<Item>)
    ensures |items| > 0 && MinVotes(items) < MaxVotes(items) ==>
              PreviewOf(Classify(items)).Shown? && PreviewOf(Classify(items)).tier == S
    ensures (forall i, j :: 0 <= i < |items| && 0 <= j < |items| ==> items[i].votes == items[j].votes) ==>
              PreviewOf(Classify(items)) == Nothing
  {
    if |items| > 0 && MinVotes(items) < MaxVotes(items) {
      ClassifyExtremes(items);
    }
    if forall i, j :: 0 <= i < |items| && 0 <= j < |items| ==> items[i].votes == items[j].votes {
      ClassifyTied(items);
    }
  }

  /** A successful entry of the popular-tiers route previews the top of its five items. */
  lemma PreviewOfEntry(items: seq<Item>, c: Category)
    ensures var e := Entry(items, c, false);
            var top := e.items;
            |top| > 0 && MinVotes(top) < MaxVotes(top) ==>
              RenderTierPreview(e).Shown? && RenderTierPreview(e).tier == S
              && RenderTierPreview(e).items <= Classify(top).s
  {
    PreviewOfClassified(TopItems(items, c.id, ItemLimit));
  }
}
