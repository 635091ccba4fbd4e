/**
 * The quote carousel (js/quotes.js): index arithmetic for next/previous/jump,
 * the auto-rotation play/pause flags, favourites kept in local storage,
 * searching, category filtering with its delayed restore, and adding quotes.
 */
module Quotes {
  import opened Wrappers
  import Seqs
  import Text

  datatype Quote = Quote(id: int, text: string, author: string, category: string)

  /**
   * `currentIndex` is a JavaScript number: an integer, or NaN once a
   * remainder by an empty list's length has been taken.
   */
  datatype Index = At(i: int) | NaN

  /** JavaScript's `%` on integers: the remainder takes the sign of the dividend; by 0 it is NaN. */
  function JsRem(a: int, n: int): (r: Index)
    ensures n == 0 <==> r == NaN
    ensures n != 0 && a >= 0 ==> r == At(a % n) && 0 <= r.i < (if n > 0 then n else -n)
    ensures n != 0 && a < 0 ==> r.At? && -(if n > 0 then n else -n) < r.i <= 0
  {
    if n == 0 then NaN
    else if a >= 0 then At(a % n)
    else At(-((-a) % n))
  }

  /** Truncation makes the remainder odd in the dividend, so a negative dividend's remainder is the negated remainder of its absolute value. */
  lemma JsRemOdd(a: int, n: int)
    requires n != 0
    ensures JsRem(-a, n) == At(-JsRem(a, n).i)
  {
    if a == 0 {
      assert 0 % n == 0;
    }
  }

  /** `(currentIndex + 1) % quotes.length` */
  function NextIndex(idx: Index, n: nat): Index
  {
    match idx
    case NaN => NaN
    case At(i) => JsRem(i + 1, n)
  }

  /** `currentIndex > 0 ? currentIndex - 1 : quotes.length - 1` (NaN is not above 0). */
  function PrevIndex(idx: Index, n: nat): Index
  {
    match idx
    case At(i) => if i > 0 then At(i - 1) else At(n - 1)
    case NaN => At(n - 1)
  }

  predicate InRange(idx: Index, n: nat)
  {
    idx.At? && 0 <= idx.i < n
  }

  /** Moving forward from any index that is not below -1 lands on a quote, wrapping after the last. */
  lemma NextInRange(i: int, n: nat)
    requires n > 0 && i >= -1
    ensures InRange(NextIndex(At(i), n), n)
    ensures NextIndex(At(i), n) == if i + 1 == n then At(0) else if i + 1 < n then At(i + 1) else At((i + 1) % n)
  {
  }

  /** On an empty list moving forward yields NaN, and moving back yields -1. */
  lemma EmptyListIndex(idx: Index)
    ensures NextIndex(idx, 0) == NaN
    ensures PrevIndex(idx, 0) == At(-1) || (idx.At? && idx.i > 0 && PrevIndex(idx, 0) == At(idx.i - 1))
  {
  }

  /** Moving back from a quote lands on a quote, wrapping from the first to the last. */
  lemma PrevInRange(idx: Index, n: nat)
    requires n > 0 && (InRange(idx, n) || idx == NaN)
    ensures InRange(PrevIndex(idx, n), n)
  {
  }

  /** Previous undoes next and next undoes previous on every in-range index. */
  lemma PrevNextInverse(i: int, n: nat)
    requires 0 <= i < n
    ensures PrevIndex(NextIndex(At(i), n), n) == At(i)
    ensures NextIndex(PrevIndex(At(i), n), n) == At(i)
  {
    NextInRange(i, n);
    if i > 0 {
      NextInRange(i - 1, n);
    } else {
      NextInRange(n - 1, n);
    }
  }

  /** `k` presses of next. */
  function Advance(idx: Index, n: nat, k: nat): Index
  {
    if k == 0 then idx else NextIndex(Advance(idx, n, k - 1), n)
  }

  /**
   * Up to `n` presses of next from quote `i` walk the list in order,
   * wrapping once past the end; in particular `n` presses come back to `i`.
   */
  lemma {:induction false} AdvanceWalk(i: int, n: nat, k: nat)
    requires 0 <= i < n && k <= n
    ensures Advance(At(i), n, k) == if i + k < n then At(i + k) else At(i + k - n)
  {
    if k > 0 {
      AdvanceWalk(i, n, k - 1);
      var j := if i + k - 1 < n then i + k - 1 else i + k - 1 - n;
      NextInRange(j, n);
    }
  }

  lemma FullCycle(i: int, n: nat)
    requires 0 <= i < n
    ensures Advance(At(i), n, n) == At(i)
  {
    AdvanceWalk(i, n, n);
  }

  // ---------------------------------------------------------------------------
  // Favourites
  // ---------------------------------------------------------------------------

  /** `Array.prototype.splice(index, 1)`: drops the element at `index`. */
  function RemoveAt(s: seq<int>, index: nat): (r: seq<int>)
    requires index < |s|
    ensures |r| == |s| - 1
    ensures forall j :: 0 <= j < index ==> r[j] == s[j]
    ensures forall j :: index <= j < |r| ==> r[j] == s[j + 1]
  {
    s[..index] + s[index + 1..]
  }

  function IsId(quoteId: int): int -> bool
  {
    (x: int) => x == quoteId
  }

  /** `toggleFavorite`: the first occurrence of the id is spliced out, or the id is pushed. */
  function ToggleFavorite(favorites: seq<int>, quoteId: int): seq<int>
  {
    match Seqs.FindIndex(favorites, IsId(quoteId))
    case Some(index) => RemoveAt(favorites, index)
    case None => favorites + [quoteId]
  }

  /** In a list without repeats, toggling flips membership of the id and keeps every other id. */
  lemma ToggleFlips(favorites: seq<int>, quoteId: int)
    requires Seqs.Distinct(favorites)
    ensures quoteId in ToggleFavorite(favorites, quoteId) <==> quoteId !in favorites
    ensures forall x :: x != quoteId ==> (x in ToggleFavorite(favorites, quoteId) <==> x in favorites)
    ensures Seqs.Distinct(ToggleFavorite(favorites, quoteId))
  {
    var r := ToggleFavorite(favorites, quoteId);
    match Seqs.FindIndex(favorites, IsId(quoteId))
    case Some(index) =>
      assert r == favorites[..index] + favorites[index + 1..];
      assert favorites == favorites[..index] + [quoteId] + favorites[index + 1..];
      forall j | 0 <= j < |r| ensures r[j] != quoteId {
        if j < index { assert r[j] == favorites[j]; } else { assert r[j] == favorites[j + 1]; }
      }
    case None =>
      assert r == favorites + [quoteId];
  }

  /** Toggling an id that is not a favourite twice restores the list exactly. */
  lemma ToggleTwiceRestores(favorites: seq<int>, quoteId: int)
    requires quoteId !in favorites
    ensures ToggleFavorite(ToggleFavorite(favorites, quoteId), quoteId) == favorites
  {
    var once := favorites + [quoteId];
    assert ToggleFavorite(favorites, quoteId) == once;
    Seqs.FindIndexAppend(favorites, quoteId, IsId(quoteId));
    assert Seqs.FindIndex(once, IsId(quoteId)) == Some(|favorites|);
    assert once[..|favorites|] + once[|favorites| + 1..] == favorites;
  }

  /** Toggling a favourite twice moves it to the end: the same ids, in a different order. */
  lemma ToggleTwiceSameIds(favorites: seq<int>, quoteId: int)
    requires Seqs.Distinct(favorites)
    ensures multiset(ToggleFavorite(ToggleFavorite(favorites, quoteId), quoteId)) == multiset(favorites)
  {
    if quoteId in favorites {
      var index := Seqs.FindIndex(favorites, IsId(quoteId)).value;
      var once := ToggleFavorite(favorites, quoteId);
      ToggleFlips(favorites, quoteId);
      assert once == favorites[..index] + favorites[index + 1..];
      assert favorites == favorites[..index] + [quoteId] + favorites[index + 1..];
      assert ToggleFavorite(once, quoteId) == once + [quoteId];
    } else {
      ToggleTwiceRestores(favorites, quoteId);
    }
  }

  // ---------------------------------------------------------------------------
  // Searching and filtering
  // ---------------------------------------------------------------------------

  /** The test inside `searchQuotes`, case-insensitive on text or author. */
  predicate MatchesSearch(q: Quote, term: string)
  {
    Text.Contains(Text.Lower(q.text), Text.Lower(term)) || Text.Contains(Text.Lower(q.author), Text.Lower(term))
  }

  /** `searchQuotes`: the quotes whose text or author contains the term, in list order. */
  function SearchQuotes(quotes: seq<Quote>, term: string): (r: seq<Quote>)
    ensures Seqs.IsSubsequence(r, quotes)
    ensures forall q :: q in r <==> q in quotes && MatchesSearch(q, term)
  {
    Seqs.Filter(quotes, (q: Quote) => MatchesSearch(q, term))
  }

  /** Every quote matches the empty search term. */
  lemma SearchEmptyTermKeepsAll(quotes: seq<Quote>)
    ensures forall q :: q in quotes ==> q in SearchQuotes(quotes, "")
  {
    forall q | q in quotes ensures MatchesSearch(q, "") {
      assert Text.StartsWith(Text.Lower(q.text), "");
    }
  }

  /** The test inside `filterQuotesByCategory`. */
  predicate InCategory(q: Quote, category: string)
  {
    q.category == category || category == "all"
  }

  function FilterByCategory(quotes: seq<Quote>, category: string): (r: seq<Quote>)
    ensures Seqs.IsSubsequence(r, quotes)
    ensures forall q :: q in r <==> q in quotes && InCategory(q, category)
    ensures category == "all" ==> r == quotes
  {
    var r := Seqs.Filter(quotes, (q: Quote) => InCategory(q, category));
    if category == "all" then
      Seqs.FilterAll(quotes, (q: Quote) => InCategory(q, category));
      r
    else r
  }

  // ---------------------------------------------------------------------------
  // The carousel object
  // ---------------------------------------------------------------------------

  /**
   * The `QuoteManager` object. `hasInterval` says whether an auto-rotation
   * interval is installed; `favorites` is the `favoriteQuotes` list in local
   * storage (an absent or unreadable entry reads as the empty list);
   * `restores` holds, oldest first, the quote lists that pending 30-second
   * timers of `filterQuotesByCategory` will put back.
   */
  class QuoteManager {
    var quotes: seq<Quote>
    var currentIndex: Index
    var isPlaying: bool
    var hasInterval: bool
    var favorites: seq<int>
    var restores: seq<seq<Quote>>

    /** An installed interval always belongs to a playing carousel. */
    predicate Valid()
      reads this
    {
      hasInterval ==> isPlaying
    }

    /** The constructor followed by `init`, which starts the rotation. */
    constructor(quotes: seq<Quote>, favorites: seq<int>)
      ensures this.quotes == quotes && this.favorites == favorites
      ensures currentIndex == At(0) && isPlaying && hasInterval && restores == []
      ensures Valid()
    {
      this.quotes := quotes;
      this.currentIndex := At(0);
      this.isPlaying := true;
      this.hasInterval := true;
      this.favorites := favorites;
      this.restores := [];
    }

    /** `startAutoRotation`: replaces any interval with a new one and marks the carousel playing. */
    method StartAutoRotation()
      modifies this
      ensures hasInterval && isPlaying && Valid()
      ensures quotes == old(quotes) && currentIndex == old(currentIndex)
      ensures favorites == old(favorites) && restores == old(restores)
    {
      hasInterval := true;
      isPlaying := true;
    }

    /** `pauseAutoRotation`: removes the interval; the playing flag is left as it is. */
    method PauseAutoRotation()
      requires Valid()
      modifies this
      ensures !hasInterval && isPlaying == old(isPlaying) && Valid()
      ensures quotes == old(quotes) && currentIndex == old(currentIndex)
      ensures favorites == old(favorites) && restores == old(restores)
    {
      hasInterval := false;
    }

    /** `resumeAutoRotation`: restarts only a playing carousel whose interval was removed. */
    method ResumeAutoRotation()
      requires Valid()
      modifies this
      ensures if !old(hasInterval) && old(isPlaying) then hasInterval && isPlaying
              else hasInterval == old(hasInterval) && isPlaying == old(isPlaying)
      ensures Valid() && hasInterval == isPlaying
      ensures quotes == old(quotes) && currentIndex == old(currentIndex)
      ensures favorites == old(favorites) && restores == old(restores)
    {
      if !hasInterval && isPlaying {
        StartAutoRotation();
      }
    }

    /** `resetAutoRotation`: a playing carousel gets a fresh interval; a stopped one stays stopped. */
    method ResetAutoRotation()
      requires Valid()
      modifies this
      ensures isPlaying == old(isPlaying)
      ensures hasInterval == (old(hasInterval) || old(isPlaying)) && Valid()
      ensures quotes == old(quotes) && currentIndex == old(currentIndex)
      ensures favorites == old(favorites) && restores == old(restores)
    {
      if isPlaying {
        StartAutoRotation();
      }
    }

    /** `toggleAutoRotation`: flips the playing flag, installing or removing the interval with it. */
    method ToggleAutoRotation()
      requires Valid()
      modifies this
      ensures isPlaying == !old(isPlaying) && hasInterval == isPlaying && Valid()
      ensures quotes == old(quotes) && currentIndex == old(currentIndex)
      ensures favorites == old(favorites) && restores == old(restores)
    {
      if isPlaying {
        PauseAutoRotation();
        isPlaying := false;
      } else {
        StartAutoRotation();
      }
    }

    /** `nextQuote`: moves forward with wrap-around, then resets the rotation. */
    method NextQuote()
      requires Valid()
      modifies this
      ensures currentIndex == NextIndex(old(currentIndex), |quotes|)
      ensures isPlaying == old(isPlaying) && hasInterval == (old(hasInterval) || old(isPlaying)) && Valid()
      ensures quotes == old(quotes) && favorites == old(favorites) && restores == old(restores)
    {
      currentIndex := NextIndex(currentIndex, |quotes|);
      ResetAutoRotation();
    }

    /** `previousQuote`: moves back, from the first quote to the last, then resets the rotation. */
    method PreviousQuote()
      requires Valid()
      modifies this
      ensures currentIndex == PrevIndex(old(currentIndex), |quotes|)
      ensures isPlaying == old(isPlaying) && hasInterval == (old(hasInterval) || old(isPlaying)) && Valid()
      ensures quotes == old(quotes) && favorites == old(favorites) && restores == old(restores)
    {
      currentIndex := PrevIndex(currentIndex, |quotes|);
      ResetAutoRotation();
    }

    /** `goToQuote`: jumps to `index` only when it names a quote; otherwise nothing changes. */
    method GoToQuote(index: int)
      requires Valid()
      modifies this
      ensures 0 <= index < |quotes| ==> currentIndex == At(index) && hasInterval == (old(hasInterval) || old(isPlaying))
      ensures !(0 <= index < |quotes|) ==> currentIndex == old(currentIndex) && hasInterval == old(hasInterval)
      ensures isPlaying == old(isPlaying) && Valid()
      ensures quotes == old(quotes) && favorites == old(favorites) && restores == old(restores)
    {
      if 0 <= index < |quotes| {
        currentIndex := At(index);
        ResetAutoRotation();
      }
    }

    /** `toggleFavorite` on the stored favourites list. */
    method ToggleFavoriteQuote(quoteId: int)
      modifies this
      ensures favorites == ToggleFavorite(old(favorites), quoteId)
      ensures quotes == old(quotes) && currentIndex == old(currentIndex) && restores == old(restores)
      ensures isPlaying == old(isPlaying) && hasInterval == old(hasInterval)
    {
      var index := Seqs.FindIndex(favorites, IsId(quoteId));
      if index.Some? {
        favorites := RemoveAt(favorites, index.value);
      } else {
        favorites := favorites + [quoteId];
      }
    }

    /**
     * `filterQuotesByCategory`: when some quote is in the category (every
     * quote is in 'all'), the list becomes those quotes, the index goes back
     * to the first and the full list is queued for restoring; when none is,
     * nothing changes.
     */
    method FilterQuotesByCategory(category: string)
      modifies this
      ensures var filtered := FilterByCategory(old(quotes), category);
        if filtered == [] then quotes == old(quotes) && currentIndex == old(currentIndex) && restores == old(restores)
        else quotes == filtered && currentIndex == At(0) && restores == old(restores) + [old(quotes)]
      ensures isPlaying == old(isPlaying) && hasInterval == old(hasInterval) && favorites == old(favorites)
    {
      var filtered := FilterByCategory(quotes, category);
      if |filtered| > 0 {
        restores := restores + [quotes];
        quotes := filtered;
        currentIndex := At(0);
      }
    }

    /** The oldest pending restore timer fires: the list it captured comes back; the index is kept. */
    method FireRestore()
      requires restores != []
      modifies this
      ensures quotes == old(restores)[0] && restores == old(restores)[1..]
      ensures currentIndex == old(currentIndex) && favorites == old(favorites)
      ensures isPlaying == old(isPlaying) && hasInterval == old(hasInterval)
    {
      quotes := restores[0];
      restores := restores[1..];
    }

    /** `addQuote`: appends one quote numbered one past the current length, category 'general' by default. */
    method AddQuote(text: string, author: string, category: Option<string>)
      modifies this
      ensures |quotes| == |old(quotes)| + 1 && quotes[..|old(quotes)|] == old(quotes)
      ensures quotes[|old(quotes)|] ==
        Quote(|old(quotes)| + 1, text, author, if category.Some? then category.value else "general")
      ensures currentIndex == old(currentIndex) && favorites == old(favorites) && restores == old(restores)
      ensures isPlaying == old(isPlaying) && hasInterval == old(hasInterval)
    {
      var newQuote := Quote(|quotes| + 1, text, author, if category.Some? then category.value else "general");
      quotes := quotes + [newQuote];
    }
  }

}
