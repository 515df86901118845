/** The collage of `create_collage` and its inverse, the crop loop of
    `ApplyTexturesOperator.execute`. Six 512x512 face renders are pasted into
    a 1536x1024 RGBA canvas, three per row; the crop table cuts six 512x512
    tiles back out. Pixels are addressed as `[y, x]` in the canvas and
    `face[y][x]` in an image, the origin at the top-left corner. */
module Atlas {
  import opened Directions

  newtype Channel = c: int | 0 <= c < 256

  datatype Pixel = Rgba(r: Channel, g: Channel, b: Channel, a: Channel)

  /** What `Image.new("RGBA", ...)` fills the canvas with, and what a crop
      outside an RGBA image yields: the zero pixel, transparent black. */
  const Blank: Pixel := Rgba(0, 0, 0, 0)

  /** Side of a face render and of a collage cell (the render resolution). */
  const CellSize: nat := 512
  const CollageWidth: nat := CellSize * 3
  const CollageHeight: nat := CellSize * 2

  /** An image as rows of pixels. */
  type Face = seq<seq<Pixel>>

  predicate IsCellImage(f: Face)
  {
    |f| == CellSize && forall y :: 0 <= y < |f| ==> |f[y]| == CellSize
  }

  /** A 512x512 image every pixel of which is blank. */
  const BlankTile: Face := seq(CellSize, _ => seq(CellSize, _ => Blank))

  /** `image_order` of `create_collage`. */
  const ImageOrder: seq<string> :=
    ["Camera_X", "Camera_Y", "Camera_Z", "Camera_-X", "Camera_-Y", "Camera_-Z"]

  /** `sub_texture_order` of the crop loop. */
  const SubTextureOrder: seq<string> :=
    ["T_B_X", "T_B_Y", "T_B_Z", "T_B_-X", "T_B_-Y", "T_B_-Z"]

  /** `sub_texture_positions` of the crop loop, as (x, y). */
  const SubTexturePositions: seq<(int, int)> :=
    [(0, 0), (512, 0), (1024, 0), (0, 512), (512, 512), (1024, 512)]

  /** Both name lists follow the direction order of the camera rig: image i
      is the render of camera i and becomes slot i. */
  lemma OrdersFollowDirections()
    ensures |ImageOrder| == 6 && |SubTextureOrder| == 6 && |SubTexturePositions| == 6
    ensures forall i :: 0 <= i < 6 ==>
      ImageOrder[i] == CameraName(Order[i]) && SubTextureOrder[i] == SlotName(Order[i])
  {
  }

  /** Where `create_collage` pastes image i: `((i % 3) * 512, (i // 3) * 512)`. */
  function PasteOrigin(i: nat): (int, int)
  {
    ((i % 3) * CellSize, (i / 3) * CellSize)
  }

  /** The hard-coded crop table is the paste formula. */
  lemma CropTableIsPasteFormula()
    ensures forall i :: 0 <= i < 6 ==> SubTexturePositions[i] == PasteOrigin(i)
  {
  }

  predicate InCanvas(x: int, y: int)
  {
    0 <= x < CollageWidth && 0 <= y < CollageHeight
  }

  /** Pixel (x, y) lies in the cell of image i. */
  predicate InCell(i: nat, x: int, y: int)
  {
    var (ox, oy) := PasteOrigin(i);
    ox <= x < ox + CellSize && oy <= y < oy + CellSize
  }

  /** The cell a canvas pixel belongs to: every canvas pixel lies in one of
      the six cells. */
  function CellIndex(x: int, y: int): (i: nat)
    requires InCanvas(x, y)
    ensures i < 6 && InCell(i, x, y)
  {
    var col, row := x / CellSize, y / CellSize;
    assert col == 0 || col == 1 || col == 2;
    assert row == 0 || row == 1;
    row * 3 + col
  }

  /** A pixel of a cell lies in the canvas and in no other cell: the six
      cells are pairwise disjoint and, with `CellIndex`, tile the canvas
      exactly. */
  lemma CellIndexUnique(i: nat, x: int, y: int)
    requires i < 6 && InCell(i, x, y)
    ensures InCanvas(x, y) && CellIndex(x, y) == i
  {
    var j := CellIndex(x, y);
    assert i % 3 == j % 3 && i / 3 == j / 3;
  }

  /** Every image `create_collage` pastes is a full 512x512 render. */
  predicate FacesFit(faces: map<string, Face>)
  {
    forall i :: 0 <= i < 6 && ImageOrder[i] in faces ==> IsCellImage(faces[ImageOrder[i]])
  }

  /** The collage pixel at (x, y), read from the cell that holds it: the
      pixel of that cell's image, or blank when that image is missing. */
  function PackedPixel(faces: map<string, Face>, x: int, y: int): Pixel
    requires FacesFit(faces) && InCanvas(x, y)
  {
    var i := CellIndex(x, y);
    var (ox, oy) := PasteOrigin(i);
    if ImageOrder[i] in faces then faces[ImageOrder[i]][y - oy][x - ox] else Blank
  }

  /** Cell i of a packed collage holds image i pixel for pixel, or only
      blank pixels when image i is missing; no other image reaches it. */
  lemma PackedCell(faces: map<string, Face>, i: nat, dx: int, dy: int)
    requires FacesFit(faces) && i < 6 && 0 <= dx < CellSize && 0 <= dy < CellSize
    ensures var (ox, oy) := PasteOrigin(i);
      InCanvas(ox + dx, oy + dy) &&
      PackedPixel(faces, ox + dx, oy + dy)
        == if ImageOrder[i] in faces then faces[ImageOrder[i]][dy][dx] else Blank
  {
    var (ox, oy) := PasteOrigin(i);
    CellIndexUnique(i, ox + dx, oy + dy);
  }

  /** `collage.paste(img, (x0, y0))` for an RGBA render that fits: the
      rectangle takes the image's pixels, the rest of the canvas is kept. */
  method Paste(canvas: array2<Pixel>, img: Face, x0: nat, y0: nat)
    requires IsCellImage(img)
    requires y0 + CellSize <= canvas.Length0 && x0 + CellSize <= canvas.Length1
    modifies canvas
    ensures forall y, x :: 0 <= y < canvas.Length0 && 0 <= x < canvas.Length1 ==>
      canvas[y, x] == if y0 <= y < y0 + CellSize && x0 <= x < x0 + CellSize
                      then img[y - y0][x - x0] else old(canvas[y, x])
  {
    forall y, x | y0 <= y < y0 + CellSize && x0 <= x < x0 + CellSize {
      canvas[y, x] := img[y - y0][x - x0];
    }
  }

  /** `create_collage` without the final save: a blank canvas, then each
      image of `image_order` that was rendered pasted at its cell. */
  method CreateCollage(rendered: map<string, Face>) returns (collage: array2<Pixel>)
    requires FacesFit(rendered)
    ensures fresh(collage)
    ensures collage.Length0 == CollageHeight && collage.Length1 == CollageWidth
    ensures forall y, x :: 0 <= y < CollageHeight && 0 <= x < CollageWidth ==>
      collage[y, x] == PackedPixel(rendered, x, y)
  {
    collage := new Pixel[CollageHeight, CollageWidth]((y, x) => Blank);
    for i := 0 to 6
      invariant forall y, x :: 0 <= y < CollageHeight && 0 <= x < CollageWidth ==>
        collage[y, x] == if CellIndex(x, y) < i then PackedPixel(rendered, x, y) else Blank
    {
      var name := ImageOrder[i];
      if name in rendered {
        var x0, y0 := (i % 3) * CellSize, (i / 3) * CellSize;
        forall y, x | InCell(i, x, y) ensures InCanvas(x, y) && CellIndex(x, y) == i {
          CellIndexUnique(i, x, y);
        }
        Paste(collage, rendered[name], x0, y0);
      }
    }
  }

  /** What `crop` reads at (x, y): the atlas pixel, or blank outside it. */
  function Sample(atlas: array2<Pixel>, x: int, y: int): Pixel
    reads atlas
  {
    if 0 <= y < atlas.Length0 && 0 <= x < atlas.Length1 then atlas[y, x] else Blank
  }

  /** `collage.crop((x0, y0, x0 + 512, y0 + 512))`: always a 512x512 tile,
      padded with blank where it leaves the atlas. */
  function Crop(atlas: array2<Pixel>, x0: int, y0: int): (tile: Face)
    reads atlas
    ensures IsCellImage(tile)
    ensures forall dy, dx :: 0 <= dy < CellSize && 0 <= dx < CellSize ==>
      tile[dy][dx] == Sample(atlas, x0 + dx, y0 + dy)
  {
    seq(CellSize, dy reads atlas => seq(CellSize, dx reads atlas => Sample(atlas, x0 + dx, y0 + dy)))
  }

  /** The crop loop: one tile per entry of the crop table, stored under its
      sub-texture name. The atlas is whatever image was opened; nothing
      checks its size. */
  method CropSubTextures(collage: array2<Pixel>) returns (subTextures: map<string, Face>)
    ensures subTextures.Keys == set i | 0 <= i < 6 :: SubTextureOrder[i]
    ensures forall i :: 0 <= i < 6 ==>
      subTextures[SubTextureOrder[i]]
        == Crop(collage, SubTexturePositions[i].0, SubTexturePositions[i].1)
  {
    subTextures := map[];
    for i := 0 to 6
      invariant subTextures.Keys == set j | 0 <= j < i :: SubTextureOrder[j]
      invariant forall j :: 0 <= j < i ==>
        subTextures[SubTextureOrder[j]]
          == Crop(collage, SubTexturePositions[j].0, SubTexturePositions[j].1)
    {
      var (x, y) := SubTexturePositions[i];
      var subTexture := Crop(collage, x, y);
      subTextures := subTextures[SubTextureOrder[i] := subTexture];
    }
  }

  /** Cropping cell i of a packed collage gives back image i, or a blank
      tile when image i was missing. */
  lemma CropOfPackedCell(collage: array2<Pixel>, faces: map<string, Face>, i: nat)
    requires FacesFit(faces) && i < 6
    requires collage.Length0 == CollageHeight && collage.Length1 == CollageWidth
    requires forall y, x :: 0 <= y < CollageHeight && 0 <= x < CollageWidth ==>
      collage[y, x] == PackedPixel(faces, x, y)
    ensures Crop(collage, SubTexturePositions[i].0, SubTexturePositions[i].1)
      == if ImageOrder[i] in faces then faces[ImageOrder[i]] else BlankTile
  {
    CropTableIsPasteFormula();
    var (ox, oy) := PasteOrigin(i);
    var tile := Crop(collage, ox, oy);
    var want := if ImageOrder[i] in faces then faces[ImageOrder[i]] else BlankTile;
    forall dy | 0 <= dy < CellSize ensures tile[dy] == want[dy] {
      forall dx | 0 <= dx < CellSize ensures tile[dy][dx] == want[dy][dx] {
        PackedCell(faces, i, dx, dy);
      }
    }
  }

  /** Rendering the collage and cropping it again: every sub-texture
      T_B_<d> is exactly the render of Camera_<d>, or a blank tile when that
      render was missing. With all six renders present the round trip is
      lossless. */
  method PackThenUnpack(rendered: map<string, Face>) returns (subTextures: map<string, Face>)
    requires FacesFit(rendered)
    ensures forall i :: 0 <= i < 6 ==>
      SubTextureOrder[i] in subTextures &&
      subTextures[SubTextureOrder[i]]
        == if ImageOrder[i] in rendered then rendered[ImageOrder[i]] else BlankTile
  {
    var collage := CreateCollage(rendered);
    subTextures := CropSubTextures(collage);
    forall i | 0 <= i < 6
      ensures subTextures[SubTextureOrder[i]]
        == if ImageOrder[i] in rendered then rendered[ImageOrder[i]] else BlankTile
    {
      CropOfPackedCell(collage, rendered, i);
    }
  }
}
