/** The attached images and their preview list.  Each preview item carries
    the index its remove button passes to `removeImage`; the page is right
    when item `i` shows image `i` and removes index `i`. */
module Gallery {

  /** `{name, size, data}` where `data` is the file read as a data URL. */
  datatype Image = Image(name: string, size: nat, data: string)

  /** One preview: the picture's source, its alt text and the argument of its
      remove button. */
  datatype PreviewItem = PreviewItem(src: string, alt: string, removeIndex: int)

  datatype Session = Session(images: seq<Image>, preview: seq<PreviewItem>)

  function ItemFor(img: Image, index: int): PreviewItem {
    PreviewItem(img.data, img.name, index)
  }

  /** Item `i` of the preview shows image `i` and its button removes index `i`. */
  predicate InSync(s: Session) {
    && |s.preview| == |s.images|
    && forall i :: 0 <= i < |s.images| ==> s.preview[i] == ItemFor(s.images[i], i)
  }

  /** `Array.prototype.splice(start, 1)`: a negative start counts from the
      end, and a start at or past the end (after that adjustment) removes
      nothing. */
  function SpliceOne<T>(xs: seq<T>, start: int): (r: seq<T>)
    ensures 0 <= start < |xs| ==> r == xs[..start] + xs[start + 1..]
    ensures 0 < -start <= |xs| ==> r == xs[..|xs| + start] + xs[|xs| + start + 1..]
    ensures |xs| < -start && xs != [] ==> r == xs[1..]
    ensures |xs| <= start || xs == [] ==> r == xs
  {
    var k := if start < 0 then (if |xs| + start < 0 then 0 else |xs| + start)
             else (if start < |xs| then start else |xs|);
    if k < |xs| then xs[..k] + xs[k + 1..] else xs
  }

  /** The preview `removeImage` redraws: one item per image, numbered from 0. */
  function Redraw(images: seq<Image>): (preview: seq<PreviewItem>)
    ensures InSync(Session(images, preview))
  {
    seq(|images|, i requires 0 <= i < |images| => ItemFor(images[i], i))
  }

  /** `removeImage(index)`: splice one image out and redraw the preview. */
  function RemoveImage(s: Session, index: int): (r: Session)
    ensures InSync(r)
    ensures 0 <= index < |s.images| ==> r.images == s.images[..index] + s.images[index + 1..]
  {
    var images := SpliceOne(s.images, index);
    Session(images, Redraw(images))
  }

  /** The `onload` callback of an image read: push the image and append a
      preview item whose button removes the new last index. */
  function AddLoadedImage(s: Session, img: Image): (r: Session)
    ensures InSync(s) ==> InSync(r)
    ensures r.images == s.images + [img]
  {
    var images := s.images + [img];
    Session(images, s.preview + [ItemFor(img, |images| - 1)])
  }

  /** Removing image `i` of `n` keeps the items before it, moves every later
      image down one place, and numbers the buttons 0 .. n-2 with no gap and
      no repeat. */
  lemma RemoveReindexes(s: Session, i: int)
    requires InSync(s) && 0 <= i < |s.images|
    ensures var r := RemoveImage(s, i);
            && |r.images| == |s.images| - 1
            && (forall j :: 0 <= j < i ==> r.preview[j] == s.preview[j])
            && (forall j :: i <= j < |r.images| ==> r.images[j] == s.images[j + 1])
            && (forall j :: 0 <= j < |r.preview| ==> r.preview[j].removeIndex == j)
  {
    var r := RemoveImage(s, i);
    assert forall j :: 0 <= j < i ==> r.images[j] == s.images[j];
  }

  /** While the preview is in sync, the button under picture `j` removes
      exactly picture `j`, and the preview is in sync again afterwards. */
  lemma ButtonRemovesItsOwnImage(s: Session, j: int)
    requires InSync(s) && 0 <= j < |s.preview|
    ensures var r := RemoveImage(s, s.preview[j].removeIndex);
            && r.images == s.images[..j] + s.images[j + 1..]
            && InSync(r)
  {
  }
}
