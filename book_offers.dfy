/**
 * Book offers of the book-selling player shops: a book title sold for a
 * price, and their config form (a section mapping titles to prices).
 */
module BookOffers {
  import opened Wrappers
  import opened Values
  import opened Items
  import PriceOffers

  datatype BookOfferData = BookOffer(bookTitle: string, price: int32)

  /** A valid book offer: any title, even an empty one, and a positive price. */
  type ValidBookOffer = o: BookOfferData | o.price > 0 witness BookOffer("", 1)

  /** new BookOffer(title, price): rejects a null title, then a price that is not positive. */
  function NewBookOffer(bookTitle: Option<string>, price: int32): (r: Result<ValidBookOffer, string>)
    ensures r.Success? <==> bookTitle.Some? && price > 0
    ensures r.Success? ==> r.value.bookTitle == bookTitle.value && r.value.price == price
    ensures bookTitle.None? ==> r == Failure("Book title cannot be null!")
    ensures bookTitle.Some? && price <= 0 ==> r == Failure("Price has to be positive!")
  {
    if bookTitle.None? then Failure("Book title cannot be null!")
    else if price <= 0 then Failure("Price has to be positive!")
    else Success(BookOffer(bookTitle.value, price))
  }

  /** The section saveToConfig writes: each offer's price set under its title, in order. */
  function SavedSection(offers: seq<ValidBookOffer>): seq<Entry> {
    if |offers| == 0 then []
    else
      var last := offers[|offers| - 1];
      Put(SavedSection(offers[..|offers| - 1]), last.bookTitle, Int(last.price))
  }

  /** saveToConfig: sets every offer's price under its title in a fresh section. */
  method SaveToConfig(offers: seq<ValidBookOffer>) returns (offersSection: seq<Entry>)
    ensures offersSection == SavedSection(offers)
    ensures UniqueKeys(offersSection)
  {
    offersSection := [];
    for i := 0 to |offers|
      invariant offersSection == SavedSection(offers[..i])
      invariant UniqueKeys(offersSection)
    {
      assert offers[..i + 1][..i] == offers[..i];
      var offer := offers[i];
      PutUnique(offersSection, offer.bookTitle, Int(offer.price));
      offersSection := Put(offersSection, offer.bookTitle, Int(offer.price));
    }
    assert offers[..|offers|] == offers;
  }

  /** The offers loadFromConfig reads: one per key whose value reads as a positive int. */
  function LoadedOffers(entries: seq<Entry>): seq<ValidBookOffer> {
    if |entries| == 0 then []
    else
      var last := entries[|entries| - 1];
      var price := PriceOffers.GetInt(last.val);
      LoadedOffers(entries[..|entries| - 1]) + if price > 0 then [BookOffer(last.key, price)] else []
  }

  /** loadFromConfig: the valid offers of the section in key order; none for a missing section. */
  method LoadFromConfig(offersSection: Option<seq<Entry>>) returns (offers: seq<ValidBookOffer>)
    ensures offersSection.None? ==> offers == []
    ensures offersSection.Some? ==> offers == LoadedOffers(offersSection.value)
  {
    offers := [];
    if offersSection.Some? {
      var entries := offersSection.value;
      for i := 0 to |entries|
        invariant offers == LoadedOffers(entries[..i])
      {
        assert entries[..i + 1][..i] == entries[..i];
        var bookTitle := entries[i].key;
        var price := PriceOffers.GetInt(entries[i].val);
        if price <= 0 {
          continue;
        }
        offers := offers + [BookOffer(bookTitle, price)];
      }
      assert entries[..|entries|] == entries;
    }
  }

  /** The titles of a list of offers are pairwise distinct. */
  predicate DistinctTitles(offers: seq<ValidBookOffer>) {
    forall i, j :: 0 <= i < j < |offers| ==> offers[i].bookTitle != offers[j].bookTitle
  }

  /** A title is a key of the saved section exactly when some offer has it. */
  lemma {:induction false} SavedSectionKeys(offers: seq<ValidBookOffer>, title: string)
    ensures HasKey(SavedSection(offers), title) <==> exists i :: 0 <= i < |offers| && offers[i].bookTitle == title
    decreases |offers|
  {
    if |offers| > 0 {
      var p := offers[..|offers| - 1];
      var last := offers[|offers| - 1];
      SavedSectionKeys(p, title);
      PutHasKey(SavedSection(p), last.bookTitle, Int(last.price), title);
      if exists i :: 0 <= i < |offers| && offers[i].bookTitle == title {
        var i :| 0 <= i < |offers| && offers[i].bookTitle == title;
        if i < |p| {
          assert p[i] == offers[i];
        }
      }
    }
  }

  /** With distinct titles, loading what saveToConfig wrote gives back the same offers in order. */
  lemma {:induction false} SaveLoadRoundTrip(offers: seq<ValidBookOffer>)
    requires DistinctTitles(offers)
    ensures LoadedOffers(SavedSection(offers)) == offers
    decreases |offers|
  {
    if |offers| > 0 {
      var p := offers[..|offers| - 1];
      var last := offers[|offers| - 1];
      SaveLoadRoundTrip(p);
      SavedSectionKeys(p, last.bookTitle);
      var saved := SavedSection(offers);
      assert saved == SavedSection(p) + [Entry(last.bookTitle, Int(last.price))];
      assert saved[..|saved| - 1] == SavedSection(p);
      assert p + [last] == offers;
    }
  }

  /**
   * With duplicate titles the section keeps one entry per title holding the
   * price of the last offer with that title.
   */
  lemma {:induction false} LastDuplicateWins(offers: seq<ValidBookOffer>, i: nat)
    requires i < |offers|
    requires forall j :: i < j < |offers| ==> offers[j].bookTitle != offers[i].bookTitle
    ensures Get(SavedSection(offers), offers[i].bookTitle) == Int(offers[i].price)
    decreases |offers|
  {
    var p := offers[..|offers| - 1];
    var last := offers[|offers| - 1];
    PutGet(SavedSection(p), last.bookTitle, Int(last.price), offers[i].bookTitle);
    if i < |p| {
      assert forall j :: i < j < |p| ==> p[j] == offers[j];
      LastDuplicateWins(p, i);
    }
  }
}
