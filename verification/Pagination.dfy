/** Collecting a paged list. Four guest-library loops differ in when they stop asking. */
module Pagination {
  import opened Machine

  /** Copilot seats, pull requests, code search, organization secrets. */
  datatype StopRule = EmptyPage | ShortPage | EmptyOrShortPage | TotalCount

  datatype PageError = RequestFailed | CounterOverflow

  /** How many items the pages before page `p + 1` hold when they are full. */
  function Offset(p: nat, perPage: nat): nat {
    if p == 0 then 0 else Offset(p - 1, perPage) + perPage
  }

  /** The server's page `p`, counted from 1. */
  function Page<T>(list: seq<T>, perPage: nat, p: nat): seq<T>
    requires p >= 1
  {
    list[Min(Offset(p - 1, perPage), |list|)..Min(Offset(p, perPage), |list|)]
  }

  /** Whether a loop stops after a page with `received` items, having collected `collected` of `total`. */
  predicate Stops(rule: StopRule, received: nat, perPage: nat, collected: nat, total: nat) {
    match rule
    case EmptyPage => received == 0
    case ShortPage => received < perPage
    case EmptyOrShortPage => received == 0 || received < perPage
    case TotalCount => received == 0 || AsU32(collected) >= AsU32(total)
  }

  /** Pages that `total` items occupy, the last one perhaps only in part. */
  function UsedPages(total: nat, perPage: nat): (n: nat)
    requires perPage >= 1
    ensures total <= Offset(n, perPage)
    ensures total > 0 ==> n > 0 && Offset(n - 1, perPage) < total
    ensures total == 0 ==> n == 0
  {
    if total == 0 then 0
    else if total <= perPage then 1
    else 1 + UsedPages(total - perPage, perPage)
  }

  /** Pages that `total` items fill completely. */
  function FullPages(total: nat, perPage: nat): (n: nat)
    requires perPage >= 1
    ensures Offset(n, perPage) <= total < Offset(n + 1, perPage)
  {
    if total < perPage then 0 else 1 + FullPages(total - perPage, perPage)
  }

  /** How many pages a loop asks for when nothing goes wrong. */
  function PagesNeeded(rule: StopRule, total: nat, perPage: nat): nat
    requires perPage >= 1
  {
    match rule
    case EmptyPage => UsedPages(total, perPage) + 1
    case ShortPage => FullPages(total, perPage) + 1
    case EmptyOrShortPage => FullPages(total, perPage) + 1
    case TotalCount => if total == 0 then 1 else UsedPages(total, perPage)
  }

  lemma {:induction false} OffsetGrows(p: nat, q: nat, perPage: nat)
    requires p <= q
    ensures Offset(p, perPage) <= Offset(q, perPage)
    decreases q
  {
    if p < q {
      OffsetGrows(p, q - 1, perPage);
    }
  }

  /** The loop stops at page PagesNeeded and at no earlier one. */
  lemma StopsAtPagesNeeded(rule: StopRule, total: nat, perPage: nat, p: nat)
    requires perPage >= 1 && p >= 1 && total < TWO_32
    requires p <= PagesNeeded(rule, total, perPage)
    ensures var before, collected := Min(Offset(p - 1, perPage), total), Min(Offset(p, perPage), total);
      && before <= collected
      && (Stops(rule, collected - before, perPage, collected, total) <==> p == PagesNeeded(rule, total, perPage))
      && (p == PagesNeeded(rule, total, perPage) ==> collected == total)
  {
    var used, full := UsedPages(total, perPage), FullPages(total, perPage);
    CastOfShortLength(total);
    CastOfShortLength(Min(Offset(p, perPage), total));
    match rule
    case EmptyPage =>
      if p <= used {
        OffsetGrows(p, used, perPage);
        OffsetGrows(p - 1, used - 1, perPage);
      }
    case TotalCount =>
      if p < used {
        OffsetGrows(p, used - 1, perPage);
      }
    case _ =>
      if p <= full {
        OffsetGrows(p, full, perPage);
      }
  }

  /** Every rule terminates and returns the whole list in order, exactly when no page it needs fails and
      the page counter can hold their number. */
  method CollectPages<T>(list: seq<T>, perPage: nat, rule: StopRule, counterMax: nat, failing: set<nat>)
    returns (r: Result<seq<T>, PageError>)
    requires 1 <= perPage && |list| < TWO_32
    ensures r.Ok? <==>
      && PagesNeeded(rule, |list|, perPage) <= counterMax
      && forall p :: 1 <= p <= PagesNeeded(rule, |list|, perPage) ==> p !in failing
    ensures r.Ok? ==> r.value == list
    ensures r.Err? ==> (r.error == CounterOverflow <==> forall p :: 1 <= p <= counterMax ==> p !in failing)
  {
    ghost var needed := PagesNeeded(rule, |list|, perPage);
    var page, items := 0, [];
    while true
      invariant 0 <= page < needed && page <= counterMax
      invariant items == list[..Min(Offset(page, perPage), |list|)]
      invariant forall p :: 1 <= p <= page ==> p !in failing
      decreases needed - page
    {
      if page == counterMax {
        return Err(CounterOverflow);
      }
      page := page + 1;
      if page in failing {
        return Err(RequestFailed);
      }
      var thisPage := Page(list, perPage, page);
      StopsAtPagesNeeded(rule, |list|, perPage, page);
      items := items + thisPage;
      if Stops(rule, |thisPage|, perPage, |items|, |list|) {
        break;
      }
    }
    return Ok(items);
  }

  lemma {:induction false} UsedOrFull(total: nat, perPage: nat)
    requires perPage >= 1
    ensures UsedPages(total, perPage) ==
      FullPages(total, perPage) + (if Offset(FullPages(total, perPage), perPage) == total then 0 else 1)
  {
    var used, full := UsedPages(total, perPage), FullPages(total, perPage);
    if used < full {
      OffsetGrows(used + 1, full, perPage);
    } else if used > full + 1 {
      OffsetGrows(full + 1, used - 1, perPage);
    }
  }

  /** The short-page rule saves the last request unless the list fills its pages, and testing for an empty
      page as well changes nothing; the total count always saves it, except for the empty list. */
  lemma RequestsSaved(total: nat, perPage: nat)
    requires perPage >= 1
    ensures PagesNeeded(ShortPage, total, perPage) == PagesNeeded(EmptyPage, total, perPage) -
      (if Offset(FullPages(total, perPage), perPage) == total then 0 else 1)
    ensures PagesNeeded(EmptyOrShortPage, total, perPage) == PagesNeeded(ShortPage, total, perPage)
    ensures PagesNeeded(TotalCount, total, perPage) ==
      PagesNeeded(EmptyPage, total, perPage) - (if total == 0 then 0 else 1)
  {
    UsedOrFull(total, perPage);
  }
}
