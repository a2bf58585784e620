/** The store page: the gallery built from the store's images and its main
    image, and the carousel index the next / previous arrows and the dots
    move. */
module StoreDetails {
  import opened Common

  /** The store fields the page uses; `rest` stands for the others. */
  datatype Store = Store(mainImageUrl: Option<string>, images: Option<seq<string>>, rest: string)

  const LoadError := "Store not found or failed to load."

  /** The gallery: the store's images, with the main image put in front when
      it is set (present and not "") and not already among them. */
  function Gallery(images: Option<seq<string>>, main: Option<string>): (r: seq<string>)
    ensures var all := if images.Some? then images.value else [];
      |all| <= |r| <= |all| + 1
      && r[|r| - |all|..] == all
      && (main.Some? && main.value != "" ==> main.value in r)
      && (forall x :: x in r ==> x in all || (main.Some? && x == main.value))
      && (main.None? || main.value == "" || main.value in all ==> r == all)
  {
    var all := if images.Some? then images.value else [];
    if main.Some? && main.value != "" && main.value !in all then [main.value] + all else all
  }

  /** JavaScript's `%` on a positive divisor: the remainder takes the sign of
      the dividend. */
  function JsRem(a: int, b: int): (r: int)
    requires b > 0
    ensures a >= 0 ==> r == a % b
    ensures a < 0 ==> -b < r <= 0
  {
    if a >= 0 then a % b else -((-a) % b)
  }

  /** `images.length || 1`: an empty list counts as one slot. */
  function SlotCount(images: seq<string>): (n: int)
    ensures n >= 1
    ensures images != [] ==> n == |images|
  {
    if |images| == 0 then 1 else |images|
  }

  /** The next index: one further, wrapping from the last slot to the first. */
  function NextIndex(i: int, len: int): (r: int)
    requires len >= 1
    ensures i >= -1 ==> 0 <= r < len
    ensures 0 <= i < len ==> r == if i == len - 1 then 0 else i + 1
  {
    JsRem(i + 1, len)
  }

  /** The previous index: one back, wrapping from the first slot to the
      last. */
  function PrevIndex(i: int, len: int): (r: int)
    requires len >= 1
    ensures i >= 1 - len ==> 0 <= r < len
    ensures 0 <= i < len ==> r == if i == 0 then len - 1 else i - 1
  {
    JsRem(i - 1 + len, len)
  }

  /** Next and previous undo each other on an index in range. */
  lemma NextPrevRoundTrip(i: int, len: int)
    requires len >= 1 && 0 <= i < len
    ensures PrevIndex(NextIndex(i, len), len) == i
    ensures NextIndex(PrevIndex(i, len), len) == i
  {
  }

  /** Going forward `n` times from `i`. */
  function Forward(i: int, len: int, n: nat): int
    requires len >= 1
  {
    if n == 0 then i else NextIndex(Forward(i, len, n - 1), len)
  }

  /** Going forward `n` times from `i` moves by `n` slots modulo the count:
      after `len` steps the carousel is back where it started. */
  lemma {:induction false} ForwardWraps(i: int, len: int, n: nat)
    requires len >= 1 && 0 <= i < len
    ensures Forward(i, len, n) == (i + n) % len
  {
    if n > 0 {
      ForwardWraps(i, len, n - 1);
      StepMod(i + n - 1, len);
    }
  }

  /** Adding one to a remainder, with wrap-around, is the remainder of the
      successor. */
  lemma StepMod(a: int, len: int)
    requires a >= 0 && len >= 1
    ensures (if a % len == len - 1 then 0 else a % len + 1) == (a + 1) % len
  {
    var q, m := a / len, a % len;
    assert a == q * len + m;
    if m == len - 1 {
      ModOfMultiple(q + 1, len, 0);
      assert a + 1 == (q + 1) * len;
    } else {
      ModOfMultiple(q, len, m + 1);
    }
  }

  lemma ModOfMultiple(q: int, len: int, m: int)
    requires len >= 1 && 0 <= m < len && q * len + m >= 0
    ensures (q * len + m) % len == m
  {
    var a := q * len + m;
    var d := a / len - q;
    assert d * len == m - a % len;
    assert d > 0 ==> d * len >= len;
    assert d < 0 ==> d * len <= -len;
  }

  /** With no images the only index is 0: both arrows land there from any
      index that is not negative. */
  lemma EmptyGalleryStaysAtZero(i: int)
    requires i >= 0
    ensures NextIndex(i, SlotCount([])) == 0 && PrevIndex(i, SlotCount([])) == 0
  {
  }

  class Screen {
    var store: Option<Store>
    var currentImageIndex: int
    var loading: bool
    var error: string

    constructor()
      ensures store.None? && currentImageIndex == 0 && loading && error == ""
    {
      store, currentImageIndex, loading, error := None, 0, true, "";
    }

    /** The fetch effect: with no route id nothing is loaded; a fetched store
        is shown with its gallery in place of its images; a failed fetch
        shows the error. `loading` ends false in every case, and the index is
        not reset. */
    method LoadStore(id: string, fetched: Option<Store>)
      modifies this`store, this`loading, this`error
      ensures !loading
      ensures id == "" ==> store == old(store) && error == old(error)
      ensures id != "" && fetched.Some? ==>
        store == Some(fetched.value.(images := Some(Gallery(fetched.value.images, fetched.value.mainImageUrl))))
        && error == ""
      ensures id != "" && fetched.None? ==> store == old(store) && error == LoadError
    {
      if id == "" {
        loading := false;
        return;
      }
      loading := true;
      if fetched.Some? {
        var data := fetched.value;
        store := Some(data.(images := Some(Gallery(data.images, data.mainImageUrl))));
        error := "";
      } else {
        error := LoadError;
      }
      loading := false;
    }

    /** handleNextImage: nothing without a store or an image list. */
    method NextImage()
      modifies this`currentImageIndex
      ensures store.None? || store.value.images.None? ==> currentImageIndex == old(currentImageIndex)
      ensures store.Some? && store.value.images.Some? ==>
        currentImageIndex == NextIndex(old(currentImageIndex), SlotCount(store.value.images.value))
    {
      if store.None? || store.value.images.None? {
        return;
      }
      currentImageIndex := NextIndex(currentImageIndex, SlotCount(store.value.images.value));
    }

    /** handlePrevImage: nothing without a store or an image list. */
    method PrevImage()
      modifies this`currentImageIndex
      ensures store.None? || store.value.images.None? ==> currentImageIndex == old(currentImageIndex)
      ensures store.Some? && store.value.images.Some? ==>
        currentImageIndex == PrevIndex(old(currentImageIndex), SlotCount(store.value.images.value))
    {
      if store.None? || store.value.images.None? {
        return;
      }
      var len := SlotCount(store.value.images.value);
      currentImageIndex := PrevIndex(currentImageIndex, len);
    }

    /** handleDotClick. */
    method DotClick(idx: int)
      modifies this`currentImageIndex
      ensures currentImageIndex == idx
    {
      currentImageIndex := idx;
    }
  }
}
