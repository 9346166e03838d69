/** The image gallery: the image documents collected from the user's transactions, and the index
    of the enlarged image as moved by the keyboard and the arrow buttons. */
module ImageGallery {
  import opened Wrappers
  import opened Strings
  import Lists
  import Decimal

  /** The transaction a collected image belongs to. */
  datatype Owner = Owner(id: string, title: string, date: string)

  datatype Document = Document(
    id: string, url: string, fileName: string, mimeType: string, uploadedAt: string,
    owner: Option<Owner>)

  /** A transaction as the listing returns it; absent documents are an empty list. */
  datatype GalleryTransaction = GalleryTransaction(
    id: string, title: string, date: string, documents: seq<Document>)

  predicate IsImage(d: Document) {
    StartsWith(d.mimeType, "image/")
  }

  function OwnerOf(t: GalleryTransaction): Owner {
    Owner(t.id, t.title, t.date)
  }

  /** `{ ...doc, transaction: { id, title, date } }` for each document in `docs`. */
  function Tag(docs: seq<Document>, o: Owner): (r: seq<Document>)
    ensures |r| == |docs|
    ensures forall i :: 0 <= i < |docs| ==> r[i] == docs[i].(owner := Some(o))
  {
    if |docs| == 0 then [] else [docs[0].(owner := Some(o))] + Tag(docs[1..], o)
  }

  /** The images of one transaction, in document order, each tagged with the transaction. */
  function ImagesOf(t: GalleryTransaction): seq<Document> {
    Tag(Lists.Keep(t.documents, IsImage), OwnerOf(t))
  }

  /** `fetchImages`: the images of every transaction, transaction by transaction. */
  function Collect(txs: seq<GalleryTransaction>): (r: seq<Document>)
    ensures forall i :: 0 <= i < |r| ==> IsImage(r[i])
    ensures forall i :: 0 <= i < |r| ==>
              exists t :: t in txs && r[i].owner == Some(OwnerOf(t))
  {
    if |txs| == 0 then []
    else
      var head := ImagesOf(txs[0]);
      var rest := Collect(txs[1..]);
      assert forall i :: 0 <= i < |head| ==> IsImage(head[i]) && head[i].owner == Some(OwnerOf(txs[0]));
      assert forall t :: t in txs[1..] ==> t in txs;
      head + rest
  }

  /** Collecting over two lists of transactions gives the images of the first, then those of
      the second. */
  lemma {:induction false} CollectAppend(a: seq<GalleryTransaction>, b: seq<GalleryTransaction>)
    ensures Collect(a + b) == Collect(a) + Collect(b)
  {
    if |a| == 0 {
      assert a + b == b;
    } else {
      assert (a + b)[1..] == a[1..] + b;
      CollectAppend(a[1..], b);
    }
  }

  function ImageCount(t: GalleryTransaction): int {
    |Lists.Keep(t.documents, IsImage)|
  }

  /** Every image document of every transaction is collected once, and nothing else. */
  lemma {:induction false} CollectCount(txs: seq<GalleryTransaction>)
    ensures |Collect(txs)| == Lists.Sum(txs, ImageCount)
  {
    if |txs| > 0 {
      CollectCount(txs[1..]);
    }
  }

  /** Each image document of a transaction appears in the collection, tagged with it. */
  lemma ImageCollected(txs: seq<GalleryTransaction>, i: nat, d: Document)
    requires i < |txs| && d in txs[i].documents && IsImage(d)
    ensures d.(owner := Some(OwnerOf(txs[i]))) in Collect(txs)
  {
    Lists.SplitAt(txs, i);
    CollectAppend(txs[..i], [txs[i]] + txs[i + 1..]);
    CollectAppend([txs[i]], txs[i + 1..]);
    assert Collect([txs[i]]) == ImagesOf(txs[i]) + Collect([]);
    var kept := Lists.Keep(txs[i].documents, IsImage);
    var k :| 0 <= k < |kept| && kept[k] == d;
    assert ImagesOf(txs[i])[k] == d.(owner := Some(OwnerOf(txs[i])));
  }

  // ---------------------------------------------------------------- navigation

  /** `selectedIndex`: None when no image is enlarged. */
  type Selection = Option<int>

  /** The selection names an image of a gallery of `len` images. */
  predicate InRange(sel: Selection, len: nat) {
    sel.None? || 0 <= sel.value < len
  }

  datatype Key = ArrowRight | ArrowLeft | Escape | Other(name: string)

  /** The keyboard handler; while nothing is enlarged no handler is installed. */
  function OnKey(sel: Selection, len: nat, k: Key): (r: Selection)
    ensures sel.None? ==> r.None?
    ensures sel.Some? && k == ArrowRight ==>
              r == (if sel.value < len - 1 then Some(sel.value + 1) else sel)
    ensures sel.Some? && k == ArrowLeft ==> r == (if sel.value > 0 then Some(sel.value - 1) else sel)
    ensures sel.Some? && k == Escape ==> r.None?
    ensures k.Other? ==> r == sel
  {
    if sel.None? then sel
    else
      var i := sel.value;
      if k == ArrowRight && i < len - 1 then Some(i + 1)
      else if k == ArrowLeft && i > 0 then Some(i - 1)
      else if k == Escape then None
      else sel
  }

  /** The left arrow button, shown only when an earlier image exists. */
  function PreviousButton(sel: Selection): (r: Selection)
    ensures sel.Some? && sel.value > 0 ==> r == Some(sel.value - 1)
    ensures !(sel.Some? && sel.value > 0) ==> r == sel
  {
    if sel.Some? && sel.value > 0 then Some(sel.value - 1) else sel
  }

  /** The right arrow button, shown only when a later image exists. */
  function NextButton(sel: Selection, len: nat): (r: Selection)
    ensures sel.Some? && sel.value < len - 1 ==> r == Some(sel.value + 1)
    ensures !(sel.Some? && sel.value < len - 1) ==> r == sel
  {
    if sel.Some? && sel.value < len - 1 then Some(sel.value + 1) else sel
  }

  /** Keys and buttons keep a valid selection valid. */
  lemma NavigationInRange(sel: Selection, len: nat, k: Key)
    requires InRange(sel, len)
    ensures InRange(OnKey(sel, len, k), len)
    ensures InRange(PreviousButton(sel), len)
    ensures InRange(NextButton(sel, len), len)
  {
  }

  /** Right then left returns to the same image whenever right moved. */
  lemma RightThenLeft(i: int, len: nat)
    requires 0 <= i < len - 1
    ensures OnKey(OnKey(Some(i), len, ArrowRight), len, ArrowLeft) == Some(i)
  {
  }

  /** The counter under the enlarged image, "index+1 / len": it reads as the image's position
      counted from one, and the count follows the " / ". */
  function Counter(i: nat, len: nat): (r: string)
    ensures Decimal.ParseInt(r) == Some(i + 1)
    ensures |r| > |Decimal.NatToString(i + 1)|
    ensures r[|Decimal.NatToString(i + 1)|..] == " / " + Decimal.NatToString(len)
  {
    var digits := Decimal.NatToString(i + 1);
    var rest := " / " + Decimal.NatToString(len);
    Decimal.ParseIntDigitsThen(digits, rest);
    Decimal.ParseNatToString(i + 1);
    assert (digits + rest)[|digits|..] == rest;
    digits + rest
  }
}
