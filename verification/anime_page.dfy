/** The page-level logic of the anime page that does not depend on the DOM:
    the lists-containing-this-anime fetch and its pagination, the review
    guards, reaction updates, the favourite check and the duration text. */
module AnimePage {
  import opened Wrappers
  import opened Strings

  // ---------------------------------------------------------------------
  // Lists containing this anime
  // ---------------------------------------------------------------------

  /** A list card, as the lists endpoint returns it. */
  datatype ListCard = ListCard(id: nat, name: string)

  /** A pagination object from the server: any field may be absent. */
  datatype PageInfo = PageInfo(currentPage: Option<int>, totalPages: Option<int>,
                               totalItems: Option<int>, itemsPerPage: Option<int>)

  const NoPageInfo := PageInfo(None, None, None, None)

  /** The page's own pagination state. */
  datatype Pagination = Pagination(currentPage: int, totalPages: int, totalItems: int, itemsPerPage: int)

  /** `{...old, ...patch}`: every field the patch carries wins. */
  function Overlay(p: Pagination, patch: PageInfo): (r: Pagination)
    ensures patch.currentPage.Some? ==> r.currentPage == patch.currentPage.value
    ensures patch.currentPage.None? ==> r.currentPage == p.currentPage
    ensures patch.totalPages.Some? ==> r.totalPages == patch.totalPages.value
    ensures patch.totalPages.None? ==> r.totalPages == p.totalPages
    ensures patch.totalItems.Some? ==> r.totalItems == patch.totalItems.value
    ensures patch.totalItems.None? ==> r.totalItems == p.totalItems
    ensures patch.itemsPerPage.Some? ==> r.itemsPerPage == patch.itemsPerPage.value
    ensures patch.itemsPerPage.None? ==> r.itemsPerPage == p.itemsPerPage
  {
    Pagination(patch.currentPage.GetOr(p.currentPage), patch.totalPages.GetOr(p.totalPages),
               patch.totalItems.GetOr(p.totalItems), patch.itemsPerPage.GetOr(p.itemsPerPage))
  }

  /** Overlaying is idempotent, and an empty patch changes nothing. */
  lemma OverlayIdempotent(p: Pagination, patch: PageInfo)
    ensures Overlay(Overlay(p, patch), patch) == Overlay(p, patch)
    ensures Overlay(p, NoPageInfo) == p
  {
  }

  /** The body of a successful lists response. */
  datatype ListsBody =
    | BareArray(items: seq<ListCard>)
    | Wrapped(data: seq<ListCard>, pagination: Option<PageInfo>)
    | OtherShape
    | NotJson(reason: string)

  /** What the lists request produced. An HTTP error carries its status line
      and, when its body was JSON, that body's `message` field; a fetch that
      rejects for any reason other than an abort carries its error message. */
  datatype ListsReply =
    | Aborted
    | Rejected(reason: string)
    | HttpError(status: nat, statusText: string, errorJson: Option<Option<string>>)
    | Received(body: ListsBody)

  /** What `fetchAnimeLists` resolves to. */
  datatype ListsPage = ListsPage(data: seq<ListCard>, pagination: PageInfo)

  const UnexpectedFormat := "Unexpected API response format"

  /** The message `fetchAnimeLists` throws for an HTTP error. */
  function HttpErrorMessage(status: nat, statusText: string, errorJson: Option<Option<string>>): (m: string)
    ensures m != ""
    ensures errorJson.Some? && Truthy(errorJson.value) ==> m == errorJson.value.value
    ensures errorJson.Some? && !Truthy(errorJson.value) ==> m == "Failed to fetch lists"
    ensures errorJson.None? ==>
              && StartsWith(m, "HTTP " + NatToString(status) + " ")
              && |m| == |"HTTP " + NatToString(status) + " "| + |statusText|
              && m[|m| - |statusText|..] == statusText
  {
    match errorJson
    case None => "HTTP " + NatToString(status) + " " + statusText
    case Some(message) => if Truthy(message) then message.value else "Failed to fetch lists"
  }

  /** `fetchAnimeLists`: normalises the two accepted response shapes. A bare
      array is one complete page; `{data}` keeps the server's pagination or
      gets a one-page default; anything else is an error. A missing anime id
      or an aborted request resolves to no data. */
  function FetchAnimeLists(animeId: Option<string>, page: int, reply: ListsReply): (r: Result<ListsPage, string>)
    ensures !Truthy(animeId) || reply.Aborted? ==> r == Success(ListsPage([], NoPageInfo))
    ensures Truthy(animeId) && reply.Received? && reply.body.BareArray? ==>
              var n := |reply.body.items|;
              r == Success(ListsPage(reply.body.items, PageInfo(Some(1), Some(1), Some(n), Some(n))))
    ensures Truthy(animeId) && reply.Received? && reply.body.Wrapped? && reply.body.pagination.Some? ==>
              r == Success(ListsPage(reply.body.data, reply.body.pagination.value))
    ensures Truthy(animeId) && reply.Received? && reply.body.Wrapped? && reply.body.pagination.None? ==>
              r == Success(ListsPage(reply.body.data,
                                     PageInfo(Some(page), Some(1), Some(|reply.body.data|), Some(6))))
    ensures Truthy(animeId) && reply.Received? && reply.body.OtherShape? ==> r == Failure(UnexpectedFormat)
    ensures Truthy(animeId) && reply.HttpError? ==>
              r == Failure(HttpErrorMessage(reply.status, reply.statusText, reply.errorJson))
    ensures Truthy(animeId) && reply.Received? && reply.body.NotJson? ==> r == Failure(reply.body.reason)
    ensures Truthy(animeId) && reply.Rejected? ==> r == Failure(reply.reason)
    ensures r.Success? && Truthy(animeId) && !reply.Aborted? ==> reply.Received?
  {
    if !Truthy(animeId) then Success(ListsPage([], NoPageInfo))
    else match reply
      case Aborted => Success(ListsPage([], NoPageInfo))
      case Rejected(reason) => Failure(reason)
      case HttpError(status, text, json) => Failure(HttpErrorMessage(status, text, json))
      case Received(body) =>
        match body
        case BareArray(items) =>
          Success(ListsPage(items, PageInfo(Some(1), Some(1), Some(|items|), Some(|items|))))
        case Wrapped(data, pagination) =>
          var info := if pagination.Some? then pagination.value
                      else PageInfo(Some(page), Some(1), Some(|data|), Some(6));
          Success(ListsPage(data, info))
        case OtherShape => Failure(UnexpectedFormat)
        case NotJson(reason) => Failure(reason)
  }

  /** The `containingLists` state. */
  datatype ContainingLists = ContainingLists(data: seq<ListCard>, loading: bool, error: Option<string>,
                                             pagination: Pagination)

  const InitialLists := ContainingLists([], false, None, Pagination(0, 0, 0, 6))

  const ListsErrorText := "Failed to load lists containing this anime"

  /** `fetchContainingLists(page)`. On success page 1 replaces the data and
      later pages append, the new pagination fields win and the error is
      cleared; on failure page 1 clears the data and later pages keep it.
      Loading ends either way; without an anime id nothing happens. */
  function FetchContainingLists(st: ContainingLists, animeId: Option<string>, page: int,
                                reply: ListsReply): (r: ContainingLists)
    ensures !Truthy(animeId) ==> r == st
    ensures Truthy(animeId) ==> !r.loading
    ensures Truthy(animeId) && FetchAnimeLists(animeId, page, reply).Success? ==>
              var fetched := FetchAnimeLists(animeId, page, reply).value;
              && r.data == (if page == 1 then fetched.data else st.data + fetched.data)
              && r.pagination == Overlay(st.pagination, fetched.pagination)
              && r.error.None?
    ensures Truthy(animeId) && FetchAnimeLists(animeId, page, reply).Failure? ==>
              && r.data == (if page == 1 then [] else st.data)
              && r.pagination == st.pagination
              && r.error == Some(ListsErrorText)
  {
    if !Truthy(animeId) then st
    else match FetchAnimeLists(animeId, page, reply)
      case Success(fetched) =>
        ContainingLists(if page == 1 then fetched.data else st.data + fetched.data, false, None,
                        Overlay(st.pagination, fetched.pagination))
      case Failure(_) =>
        ContainingLists(if page == 1 then [] else st.data, false, Some(ListsErrorText), st.pagination)
  }

  /** The heading of the lists section: "Appears in N List", plural unless N is one. */
  function ListsHeading(st: ContainingLists): (h: string)
    ensures StartsWith(h, "Appears in " + IntToString(st.pagination.totalItems) + " List")
    ensures h[|h| - 1] == 's' <==> st.pagination.totalItems != 1
  {
    "Appears in " + IntToString(st.pagination.totalItems) + " List"
      + (if st.pagination.totalItems != 1 then "s" else "")
  }

  /** For a non-negative total the heading's number reads back as that total. */
  lemma ListsHeadingShowsTotal(st: ContainingLists)
    requires st.pagination.totalItems >= 0
    ensures var h := ListsHeading(st);
            var digits := h[|"Appears in "|..|h| - |" List"| - (if st.pagination.totalItems != 1 then 1 else 0)];
            AllDigits(digits) && DigitsValue(digits) == st.pagination.totalItems
  {
    var n: nat := st.pagination.totalItems;
    NatToStringValue(n);
    var h := ListsHeading(st);
    var suffix := if n != 1 then "s" else "";
    assert h == "Appears in " + NatToString(n) + " List" + suffix;
    assert h[|"Appears in "|..|h| - |" List"| - |suffix|] == NatToString(n);
  }

  /** `handleLoadMore`: fetches the page after the current one. Without an
      anime id nothing happens; otherwise loading ends, a page past the first
      never loses what is shown, and a failure keeps the pagination and sets
      the error. */
  function LoadMore(st: ContainingLists, animeId: Option<string>, reply: ListsReply): (r: ContainingLists)
    ensures !Truthy(animeId) ==> r == st
    ensures Truthy(animeId) ==> !r.loading
    ensures Truthy(animeId) && st.pagination.currentPage >= 1 ==>
              |st.data| <= |r.data| && r.data[..|st.data|] == st.data
    ensures Truthy(animeId) && FetchAnimeLists(animeId, st.pagination.currentPage + 1, reply).Failure? ==>
              r.pagination == st.pagination && r.error == Some(ListsErrorText)
  {
    FetchContainingLists(st, animeId, st.pagination.currentPage + 1, reply)
  }

  /** The "Load More" button: shown under a non-empty, error-free list that
      is not loading its first page, while pages remain; disabled while loading. */
  predicate LoadMoreShown(st: ContainingLists) {
    && !(st.loading && st.pagination.currentPage == 1)
    && st.error.None?
    && |st.data| > 0
    && st.pagination.currentPage < st.pagination.totalPages
  }

  /** A failed load hides the button: the error message replaces the list. */
  lemma LoadMoreHiddenAfterFailure(st: ContainingLists, animeId: Option<string>, page: int, reply: ListsReply)
    requires Truthy(animeId) && FetchAnimeLists(animeId, page, reply).Failure?
    ensures !LoadMoreShown(FetchContainingLists(st, animeId, page, reply))
  {
  }

  /** Past the first page, loading more appends exactly the new page on
      success and keeps exactly the old data on failure. */
  lemma LoadMoreKeepsShownData(st: ContainingLists, animeId: Option<string>, reply: ListsReply)
    requires Truthy(animeId) && st.pagination.currentPage >= 1
    ensures var fetched := FetchAnimeLists(animeId, st.pagination.currentPage + 1, reply);
            LoadMore(st, animeId, reply).data == st.data + (if fetched.Success? then fetched.value.data else [])
  {
  }

  /** A reply that is one complete page (a bare array, or `{data}` without
      pagination) leaves no "Load More" button behind it. */
  lemma OnePageReplyHidesLoadMore(st: ContainingLists, animeId: Option<string>, page: int, reply: ListsReply)
    requires Truthy(animeId) && page >= 1 && reply.Received?
    requires reply.body.BareArray? || (reply.body.Wrapped? && reply.body.pagination.None?)
    ensures !LoadMoreShown(FetchContainingLists(st, animeId, page, reply))
  {
  }

  /** "Load More" asks for exactly the page after the current one: a reply
      without pagination reports the requested page back, and from the
      initial page 0 the request is for page 1, which replaces the data. */
  lemma LoadMoreRequestsNextPage(st: ContainingLists, animeId: Option<string>, items: seq<ListCard>)
    requires Truthy(animeId)
    ensures LoadMore(st, animeId, Received(Wrapped(items, None))).pagination.currentPage
            == st.pagination.currentPage + 1
    ensures st.pagination.currentPage == 0 ==> LoadMore(st, animeId, Received(BareArray(items))).data == items
  {
  }

  /** A successful load of a well-formed next page moves the current page on
      to the page requested. */
  lemma LoadMoreAdvancesPage(st: ContainingLists, animeId: Option<string>, items: seq<ListCard>,
                             totalPages: int, totalItems: int)
    requires Truthy(animeId)
    ensures var reply := Received(Wrapped(items, Some(PageInfo(Some(st.pagination.currentPage + 1), Some(totalPages),
                                                                Some(totalItems), Some(6)))));
            var r := LoadMore(st, animeId, reply);
            r.pagination.currentPage == st.pagination.currentPage + 1
            && (LoadMoreShown(r) ==> r.pagination.currentPage < totalPages)
  {
  }

  // ---------------------------------------------------------------------
  // Reviews and reactions
  // ---------------------------------------------------------------------

  /** The review form. */
  datatype ReviewForm = ReviewForm(rating: int, content: string)

  const LoginRequired := "You must be logged in to post a review."
  const RatingOutOfRange := "Rating must be between 1 and 5 stars."

  /** The guards of `handleSubmitReview`: the rating to send, or the error
      shown without any request. */
  function SubmitReviewGuard(token: Option<string>, form: ReviewForm): (r: Result<int, string>)
    ensures r.Success? <==> Truthy(token) && 1 <= form.rating <= 5
    ensures r.Success? ==> r.value == form.rating
    ensures !Truthy(token) ==> r == Failure(LoginRequired)
    ensures Truthy(token) && !(1 <= form.rating <= 5) ==> r == Failure(RatingOutOfRange)
  {
    if !Truthy(token) then Failure(LoginRequired)
    else if form.rating < 1 || form.rating > 5 then Failure(RatingOutOfRange)
    else Success(form.rating)
  }

  /** The guard of `handleDeleteReview`: a token and an existing review. */
  function DeleteReviewGuard(token: Option<string>, hasUserReview: bool): (r: Result<(), string>)
    ensures r.Success? <==> Truthy(token) && hasUserReview
    ensures r.Failure? ==> r.error == "You must be logged in and have a review to delete."
  {
    if !Truthy(token) || !hasUserReview then Failure("You must be logged in and have a review to delete.")
    else Success(())
  }

  /** One early-return check of a handler: when it fails, its message is
      shown and nothing is sent. */
  datatype Check = Check(fails: bool, message: string)

  /** Reference reading of a chain of early returns: the message of the
      first failing check, if any. */
  function FirstFailing(checks: seq<Check>): (r: Option<string>)
    ensures r.None? <==> forall k :: 0 <= k < |checks| ==> !checks[k].fails
    ensures r.Some? ==> exists k :: 0 <= k < |checks| && checks[k].fails && r.value == checks[k].message
                                    && forall j :: 0 <= j < k ==> !checks[j].fails
  {
    if |checks| == 0 then None
    else if checks[0].fails then Some(checks[0].message)
    else
      var rest := FirstFailing(checks[1..]);
      assert forall k :: 1 <= k < |checks| ==> checks[k] == checks[1..][k - 1];
      rest
  }

  /** The submit guard is the chain "logged in", then "rating in range"; the
      review text plays no part in it. */
  lemma SubmitReviewGuardIsFirstFailing(token: Option<string>, form: ReviewForm, content: string)
    ensures var first := FirstFailing([Check(!Truthy(token), LoginRequired),
                                       Check(form.rating < 1 || form.rating > 5, RatingOutOfRange)]);
            && (SubmitReviewGuard(token, form).Failure? <==> first.Some?)
            && (first.Some? ==> SubmitReviewGuard(token, form) == Failure(first.value))
    ensures SubmitReviewGuard(token, form) == SubmitReviewGuard(token, form.(content := content))
  {
  }

  /** The delete guard is the chain "logged in", then "has a review", both
      with the same message. */
  lemma DeleteReviewGuardIsFirstFailing(token: Option<string>, hasUserReview: bool)
    ensures var message := "You must be logged in and have a review to delete.";
            var first := FirstFailing([Check(!Truthy(token), message), Check(!hasUserReview, message)]);
            && (DeleteReviewGuard(token, hasUserReview).Failure? <==> first.Some?)
            && (first.Some? ==> DeleteReviewGuard(token, hasUserReview) == Failure(first.value))
  {
  }

  datatype Review = Review(reviewId: nat, rating: int, content: string, likeCount: int, dislikeCount: int)

  /** What the reaction buttons report after a reaction was saved. */
  datatype ReactionChange = ReactionChange(reviewId: nat, likeCount: int, dislikeCount: int,
                                           userReaction: Option<string>)

  /** The review list after a reaction: new counts on the matching reviews only. */
  function UpdateReviewCounts(reviews: seq<Review>, c: ReactionChange): (r: seq<Review>)
    ensures |r| == |reviews|
    ensures forall k :: 0 <= k < |reviews| && reviews[k].reviewId == c.reviewId ==>
              r[k] == reviews[k].(likeCount := c.likeCount, dislikeCount := c.dislikeCount)
    ensures forall k :: 0 <= k < |reviews| && reviews[k].reviewId != c.reviewId ==> r[k] == reviews[k]
  {
    seq(|reviews|, k requires 0 <= k < |reviews| =>
      if reviews[k].reviewId == c.reviewId
      then reviews[k].(likeCount := c.likeCount, dislikeCount := c.dislikeCount)
      else reviews[k])
  }

  /** `handleReactionChange`: the counts of the matching review and the
      user's reaction to it; every other review and reaction is unchanged. */
  function HandleReactionChange(reviews: seq<Review>, reactions: map<nat, Option<string>>,
                                c: ReactionChange): (r: (seq<Review>, map<nat, Option<string>>))
    ensures r.0 == UpdateReviewCounts(reviews, c)
    ensures r.1.Keys == reactions.Keys + {c.reviewId}
    ensures r.1[c.reviewId] == c.userReaction
    ensures forall id :: id in reactions && id != c.reviewId ==> r.1[id] == reactions[id]
  {
    (UpdateReviewCounts(reviews, c), reactions[c.reviewId := c.userReaction])
  }

  /** Replaying the same reaction report changes nothing more. */
  lemma ReactionChangeIdempotent(reviews: seq<Review>, reactions: map<nat, Option<string>>, c: ReactionChange)
    ensures var once := HandleReactionChange(reviews, reactions, c);
            HandleReactionChange(once.0, once.1, c) == once
  {
    var once := HandleReactionChange(reviews, reactions, c);
    var twice := HandleReactionChange(once.0, once.1, c);
    assert twice.1 == once.1;
    assert |twice.0| == |once.0|;
    forall k | 0 <= k < |once.0| ensures twice.0[k] == once.0[k] {
      if once.0[k].reviewId == c.reviewId {
        assert once.0[k].likeCount == c.likeCount && once.0[k].dislikeCount == c.dislikeCount;
      }
    }
    assert twice.0 == once.0;
  }

  // ---------------------------------------------------------------------
  // Favourites
  // ---------------------------------------------------------------------

  /** One favourite, its id already through JavaScript's unary `+` (`None` is `NaN`). */
  datatype Favourite = Favourite(entityType: string, entityId: Option<int>)

  /** `+a === +b` on converted numbers: `NaN` equals nothing. */
  predicate SameNumber(a: Option<int>, b: Option<int>) {
    a.Some? && b.Some? && a.value == b.value
  }

  predicate IsThisAnime(f: Favourite, animeId: Option<int>) {
    f.entityType == "anime" && SameNumber(f.entityId, animeId)
  }

  /** `favs.some(f => f.entityType === 'anime' && +f.entityId === +animeId)`. */
  method IsFavourite(favs: seq<Favourite>, animeId: Option<int>) returns (found: bool)
    ensures found <==> exists k :: 0 <= k < |favs| && IsThisAnime(favs[k], animeId)
  {
    found := false;
    var i := 0;
    while i < |favs| && !found
      invariant 0 <= i <= |favs|
      invariant found <==> exists k :: 0 <= k < i && IsThisAnime(favs[k], animeId)
    {
      found := IsThisAnime(favs[i], animeId);
      i := i + 1;
    }
  }

  // ---------------------------------------------------------------------
  // Episode duration
  // ---------------------------------------------------------------------

  /** Division truncated toward zero, `Math.trunc(a / b)`. */
  function TruncDiv(a: int, b: int): (q: int)
    requires b > 0
    ensures a >= 0 ==> q == a / b
    ensures a < 0 ==> q == -((-a) / b)
  {
    if a >= 0 then a / b else -((-a) / b)
  }

  /** JavaScript's `%`: the remainder of division truncated toward zero,
      so it takes the sign of the dividend and is smaller than the divisor. */
  function JsRemainder(a: int, b: int): (r: int)
    requires b > 0
    ensures a == TruncDiv(a, b) * b + r
    ensures -b < r < b
    ensures a >= 0 ==> 0 <= r
    ensures a <= 0 ==> r <= 0
  {
    if a >= 0 then a % b
    else
      var q := (-a) / b;
      var r := -((-a) % b);
      assert -a == q * b + (-a) % b;
      assert (-q) * b == -(q * b);
      r
  }

  /** Negating the dividend negates the JavaScript remainder. */
  lemma JsRemainderOdd(a: int, b: int)
    requires b > 0
    ensures JsRemainder(-a, b) == -JsRemainder(a, b)
  {
  }

  /** `formatDuration`: "N/A" for a missing or zero duration, else the
      minutes-and-seconds text. */
  function FormatDuration(seconds: Option<int>): (text: string)
    ensures seconds.None? || seconds.value == 0 ==> text == "N/A"
    ensures seconds.Some? && seconds.value != 0 ==> text == DurationText(seconds.value)
  {
    if seconds.None? || seconds.value == 0 then "N/A" else DurationText(seconds.value)
  }

  /** `${minutes}:${remainingSeconds.padStart(2, '0')}` with `Math.floor`
      minutes and the JavaScript remainder. A positive duration reads as its
      whole minutes and its seconds padded to two digits; a negative one
      floors its minutes away from zero and keeps the sign on its seconds,
      so -61 reads "-2:-1". */
  function DurationText(s: int): (text: string)
    requires s != 0
    ensures s > 0 ==> text == NatToString(s / 60) + [':'] + PadStart(NatToString(s % 60), 2, '0')
    ensures s < 0 ==>
              var m := (-s + 59) / 60;
              var r := (-s) % 60;
              text == "-" + NatToString(m) + [':'] + (if r == 0 then "00" else "-" + NatToString(r))
  {
    if s > 0 then PositiveDurationText(s) else NegativeDurationText(s)
  }

  /** Helper: the text of a positive duration. */
  function PositiveDurationText(s: int): (text: string)
    requires s > 0
    ensures text == NatToString(s / 60) + [':'] + PadStart(NatToString(s % 60), 2, '0')
  {
    assert IntToString(s / 60) == NatToString(s / 60);
    assert IntToString(JsRemainder(s, 60)) == NatToString(s % 60);
    IntToString(s / 60) + ":" + PadStart(IntToString(JsRemainder(s, 60)), 2, '0')
  }

  /** Helper: the text of a negative duration. */
  function NegativeDurationText(s: int): (text: string)
    requires s < 0
    ensures var m := (-s + 59) / 60;
            var r := (-s) % 60;
            text == "-" + NatToString(m) + [':'] + (if r == 0 then "00" else "-" + NatToString(r))
  {
    NegativeDurationParts(s);
    IntToString(s / 60) + ":" + PadStart(IntToString(JsRemainder(s, 60)), 2, '0')
  }

  /** Helper: the minutes and seconds texts of a negative duration. */
  lemma NegativeDurationParts(s: int)
    requires s < 0
    ensures IntToString(s / 60) == "-" + NatToString((-s + 59) / 60)
    ensures PadStart(IntToString(JsRemainder(s, 60)), 2, '0')
            == if (-s) % 60 == 0 then "00" else "-" + NatToString((-s) % 60)
  {
    var m := (-s + 59) / 60;
    var r := (-s) % 60;
    assert s / 60 == -m by {
      assert -s == ((-s) / 60) * 60 + r;
      assert r == 0 ==> m == (-s) / 60;
      assert r != 0 ==> m == (-s) / 60 + 1;
    }
    var rem := JsRemainder(s, 60);
    assert rem == -r;
    if r == 0 {
      assert IntToString(rem) == "0";
    } else {
      assert IntToString(rem) == "-" + NatToString(r);
    }
  }

  /** The duration text of minus 61 seconds, as JavaScript renders it. */
  lemma FormatDurationOfMinus61()
    ensures FormatDuration(Some(-61)) == "-2:-1"
  {
    assert -61 / 60 == -2 && 61 % 60 == 1;
    assert NatToString(2) == [DigitChar(2)] == "2";
    assert NatToString(1) == [DigitChar(1)] == "1";
    assert "-" + "2" + [':'] + ("-" + "1") == "-2:-1";
  }

  /** Reads a `minutes:ss` text back into seconds. */
  function ParseDuration(text: string): Option<nat> {
    ParseDurationParts(Split(text, ':'))
  }

  /** The pieces of a `minutes:ss` text: digits, then exactly two digits. */
  function ParseDurationParts(parts: seq<string>): Option<nat> {
    if |parts| == 2 && AllDigits(parts[0]) && AllDigits(parts[1]) && |parts[1]| == 2
    then Some(DigitsValue(parts[0]) * 60 + DigitsValue(parts[1]))
    else None
  }

  /** A leading zero does not change the value of a digit string. */
  lemma {:induction false} LeadingZeroValue(d: string)
    requires AllDigits(d)
    ensures AllDigits("0" + d) && DigitsValue("0" + d) == DigitsValue(d)
  {
    var z := "0" + d;
    if |d| > 0 {
      assert z[..|z| - 1] == "0" + d[..|d| - 1];
      LeadingZeroValue(d[..|d| - 1]);
    } else {
      assert z[..|z| - 1] == [];
    }
  }

  /** The seconds part: two digits whose value is the remainder. */
  lemma TwoDigitSeconds(r: nat)
    requires r < 60
    ensures var t := PadStart(NatToString(r), 2, '0');
            |t| == 2 && AllDigits(t) && DigitsValue(t) == r && ':' !in t
  {
    var d := NatToString(r);
    NatToStringLength(r);
    NatToStringValue(r);
    if |d| == 1 {
      assert PadStart(d, 2, '0') == "0" + d;
      LeadingZeroValue(d);
    }
  }

  /** A digit string holds no colon. */
  lemma DigitsHoldNoColon(d: string)
    requires AllDigits(d)
    ensures ':' !in d
  {
    forall i | 0 <= i < |d| ensures d[i] != ':' {
      assert IsDigit(d[i]);
    }
  }

  /** Helper: a `minutes:ss` text of digits splits at its one colon. */
  lemma SplitDurationText(m: string, ss: string)
    requires AllDigits(m) && AllDigits(ss)
    ensures Split(m + [':'] + ss, ':') == [m, ss]
  {
    DigitsHoldNoColon(m);
    DigitsHoldNoColon(ss);
    SplitAfterSeparator(m, ss, ':');
    SplitWithoutSeparator(ss, ':');
  }

  /** Helper: the value of well-formed pieces. */
  lemma ParseDurationPartsOf(m: string, ss: string)
    requires AllDigits(m) && AllDigits(ss) && |ss| == 2
    ensures ParseDurationParts([m, ss]) == Some(DigitsValue(m) * 60 + DigitsValue(ss))
  {
    var parts := [m, ss];
    assert |parts| == 2 && parts[0] == m && parts[1] == ss;
  }

  /** Parsing a well-formed `minutes:ss` text. */
  lemma ParseDurationOf(m: string, ss: string)
    requires AllDigits(m) && AllDigits(ss) && |ss| == 2
    ensures ParseDuration(m + [':'] + ss) == Some(DigitsValue(m) * 60 + DigitsValue(ss))
  {
    SplitDurationText(m, ss);
    ParseDurationPartsOf(m, ss);
  }

  /** A positive duration's text reads back as the same number of seconds. */
  lemma FormatDurationRoundTrip(s: int)
    requires s > 0
    ensures ParseDuration(FormatDuration(Some(s))) == Some(s)
  {
    var q, r := s / 60, s % 60;
    assert q * 60 + r == s;
    var m := NatToString(q);
    var ss := PadStart(NatToString(r), 2, '0');
    TwoDigitSeconds(r);
    NatToStringValue(q);
    ParseDurationOf(m, ss);
    assert ParseDuration(m + [':'] + ss) == Some(q * 60 + r);
  }
}
