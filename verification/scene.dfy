/**
  The ordered overlay list of the editor (`overlayImages` in
  src/app/home/page.js) and its three list operations: append on upload,
  field-merge update by index, delete by index.  Index 0 is painted first,
  so it is the bottom-most overlay.
 */
module Scene {
  import opened Wrappers
  import Arith

  /** The `shape` field; the select control offers exactly these two values. */
  datatype Shape = Rectangle | Circle

  /** One image layer; `src` is the data URL the file reader produced. */
  datatype Overlay = Overlay(
    src: string,
    x: real,
    y: real,
    width: real,
    height: real,
    rotation: real,
    shape: Shape)

  /**
    The object spread into an entry by `updateOverlayImage`: a present field
    overrides the entry's field, an absent one leaves it.
   */
  datatype OverlayPatch = OverlayPatch(
    src: Option<string>,
    x: Option<real>,
    y: Option<real>,
    width: Option<real>,
    height: Option<real>,
    rotation: Option<real>,
    shape: Option<Shape>)

  const NoChange: OverlayPatch := OverlayPatch(None, None, None, None, None, None, None)

  /** The patch `{ x, y }` sent by a drag step. */
  function PositionPatch(x: real, y: real): OverlayPatch {
    NoChange.(x := Some(x), y := Some(y))
  }

  /** The patch `{ width, height }` sent by a resize step. */
  function SizePatch(width: real, height: real): OverlayPatch {
    NoChange.(width := Some(width), height := Some(height))
  }

  /** The entry appended when an image file has been read. */
  function NewOverlay(src: string): Overlay {
    Overlay(src, 0.0, 0.0, 100.0, 100.0, 0.0, Rectangle)
  }

  /** `{ ...img, ...updates }`: every field the patch names takes its value, every other field keeps the old one. */
  function Merge(o: Overlay, p: OverlayPatch): (m: Overlay)
    ensures m.src == (if p.src.Some? then p.src.value else o.src)
    ensures m.x == (if p.x.Some? then p.x.value else o.x)
    ensures m.y == (if p.y.Some? then p.y.value else o.y)
    ensures m.width == (if p.width.Some? then p.width.value else o.width)
    ensures m.height == (if p.height.Some? then p.height.value else o.height)
    ensures m.rotation == (if p.rotation.Some? then p.rotation.value else o.rotation)
    ensures m.shape == (if p.shape.Some? then p.shape.value else o.shape)
  {
    Overlay(
      p.src.GetOr(o.src),
      p.x.GetOr(o.x),
      p.y.GetOr(o.y),
      p.width.GetOr(o.width),
      p.height.GetOr(o.height),
      p.rotation.GetOr(o.rotation),
      p.shape.GetOr(o.shape))
  }

  /** Spreading `p` and then `q` is spreading one patch where `q`'s fields win. */
  function Then(p: OverlayPatch, q: OverlayPatch): OverlayPatch {
    OverlayPatch(
      if q.src.Some? then q.src else p.src,
      if q.x.Some? then q.x else p.x,
      if q.y.Some? then q.y else p.y,
      if q.width.Some? then q.width else p.width,
      if q.height.Some? then q.height else p.height,
      if q.rotation.Some? then q.rotation else p.rotation,
      if q.shape.Some? then q.shape else p.shape)
  }

  lemma MergeNoChange(o: Overlay)
    ensures Merge(o, NoChange) == o
  {
  }

  lemma MergeThen(o: Overlay, p: OverlayPatch, q: OverlayPatch)
    ensures Merge(Merge(o, p), q) == Merge(o, Then(p, q))
  {
  }

  /** Upload: `[...prev, { src, x: 0, y: 0, width: 100, height: 100, rotation: 0, shape: 'rectangle' }]`. */
  function Append(list: seq<Overlay>, src: string): (r: seq<Overlay>)
    ensures |r| == |list| + 1
    ensures r[..|list|] == list
    ensures r[|list|].x == 0.0 && r[|list|].y == 0.0
    ensures r[|list|].width == 100.0 && r[|list|].height == 100.0
    ensures r[|list|].rotation == 0.0 && r[|list|].shape == Rectangle
    ensures r[|list|].src == src
  {
    list + [NewOverlay(src)]
  }

  /**
    `prev.map((img, i) => i === index ? { ...img, ...updates } : img)`:
    only entry `index` changes, and an index outside the list changes nothing.
   */
  function UpdateAt(list: seq<Overlay>, index: int, p: OverlayPatch): (r: seq<Overlay>)
    ensures |r| == |list|
    ensures forall k :: 0 <= k < |list| && k != index ==> r[k] == list[k]
    ensures 0 <= index < |list| ==> r[index] == Merge(list[index], p)
    ensures !(0 <= index < |list|) ==> r == list
  {
    if 0 <= index < |list| then list[index := Merge(list[index], p)] else list
  }

  /**
    `prev.filter((_, i) => i !== index)`: the entry at `index` is dropped and
    the later ones move down by one, in order.
   */
  function DeleteAt(list: seq<Overlay>, index: int): (r: seq<Overlay>)
    ensures 0 <= index < |list| ==> |r| == |list| - 1
    ensures 0 <= index < |list| ==> forall k :: 0 <= k < index ==> r[k] == list[k]
    ensures 0 <= index < |list| ==> forall k :: index <= k < |r| ==> r[k] == list[k + 1]
    ensures 0 <= index < |list| ==> multiset(r) + multiset{list[index]} == multiset(list)
    ensures !(0 <= index < |list|) ==> r == list
  {
    if 0 <= index < |list| then
      assert list == list[..index] + [list[index]] + list[index + 1..];
      list[..index] + list[index + 1..]
    else list
  }

  /** Two updates of the same entry are one update with the merged patch. */
  lemma UpdateAtTwice(list: seq<Overlay>, index: int, p: OverlayPatch, q: OverlayPatch)
    ensures UpdateAt(UpdateAt(list, index, p), index, q) == UpdateAt(list, index, Then(p, q))
  {
    if 0 <= index < |list| {
      MergeThen(list[index], p, q);
    }
  }

  /** Deleting the entry just appended gives back the list before the upload. */
  lemma DeleteUndoesAppend(list: seq<Overlay>, src: string)
    ensures DeleteAt(Append(list, src), |list|) == list
  {
    assert Append(list, src)[..|list|] == list;
  }

  /** An update never changes which entries are deleted or where they go. */
  lemma UpdateThenDelete(list: seq<Overlay>, index: int, p: OverlayPatch)
    requires 0 <= index < |list|
    ensures DeleteAt(UpdateAt(list, index, p), index) == DeleteAt(list, index)
  {
    var a := DeleteAt(UpdateAt(list, index, p), index);
    var b := DeleteAt(list, index);
    assert |a| == |b|;
    forall k | 0 <= k < |a|
      ensures a[k] == b[k]
    {
    }
  }

  /**
    What painting one overlay hands to the canvas, in physical pixels: the
    origin is translated to the overlay's centre (the point it is rotated
    about), the image is drawn at `(left, top)` with size `width x height`
    relative to that centre, and a circle is clipped to radius `clip`.
   */
  datatype Placement = Placement(
    centerX: real, centerY: real,
    left: real, top: real, width: real, height: real,
    clip: Option<real>)

  /**
    The overlay transform of `drawCanvas`: the drawn image covers exactly the
    overlay's rectangle scaled to physical pixels, centred on the rotation
    point, and a circle overlay is clipped to half its shorter side.
   */
  function Place(o: Overlay, scale: real): (pl: Placement)
    ensures pl.centerX + pl.left == o.x * scale && pl.centerY + pl.top == o.y * scale
    ensures pl.centerX + pl.left + pl.width == (o.x + o.width) * scale
    ensures pl.centerY + pl.top + pl.height == (o.y + o.height) * scale
    ensures pl.left + pl.left + pl.width == 0.0 && pl.top + pl.top + pl.height == 0.0
    ensures pl.clip.Some? <==> o.shape == Circle
    ensures pl.clip.Some? ==> pl.clip.value + pl.clip.value == Arith.Min(o.width, o.height) * scale
  {
    var w := o.width * scale;
    var h := o.height * scale;
    assert (o.x + o.width) * scale == o.x * scale + w;
    assert (o.y + o.height) * scale == o.y * scale + h;
    Placement(o.x * scale + w / 2.0, o.y * scale + h / 2.0, -w / 2.0, -h / 2.0, w, h,
              if o.shape == Circle then Some(Arith.Min(o.width, o.height) * scale / 2.0) else None)
  }

  /**
    For a positive pixel ratio the clip disc of a circle overlay fits inside
    the drawn image: its radius reaches neither side edge nor the top or
    bottom edge, and it touches the nearer pair.
   */
  lemma ClipInsideImage(o: Overlay, scale: real)
    requires scale > 0.0 && o.shape == Circle
    ensures var pl := Place(o, scale);
      && pl.clip.value <= -pl.left && pl.clip.value <= -pl.top
      && (pl.clip.value == -pl.left || pl.clip.value == -pl.top)
  {
    var m := Arith.Min(o.width, o.height);
    Arith.ScaleOrder(m, o.width, scale);
    Arith.ScaleOrder(m, o.height, scale);
  }
}
