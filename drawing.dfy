/**
 * The image-library calls of the scripts, reduced to what they are given:
 * an image is its size plus the sequence of drawing commands applied to it,
 * and a crop is the box handed to PIL's `Image.crop`.
 */
module Drawing {

  /** A colour triple in the channel order the caller passes to OpenCV. */
  datatype Color = Color(c0: int, c1: int, c2: int)

  datatype Point = Point(x: int, y: int)

  /** `cv2.rectangle` with a negative thickness fills the rectangle. */
  const Filled: int := -1

  datatype DrawCommand =
    | Rectangle(corner1: Point, corner2: Point, color: Color, thickness: int)
    | PutText(text: string, origin: Point, scale: real, color: Color, thickness: int)

  /** An image value: its height and width in pixels and the drawing applied to it so far. */
  datatype Picture = Picture(height: nat, width: nat, marks: seq<DrawCommand>)

  /** A PIL crop box `(left, upper, right, lower)`. */
  datatype Region = Region(left: int, upper: int, right: int, lower: int)

  /** A mutable image, the numpy array OpenCV draws into. */
  class Canvas {
    const height: nat
    const width: nat
    var marks: seq<DrawCommand>

    function Snapshot(): Picture
      reads this
    {
      Picture(height, width, marks)
    }

    constructor (p: Picture)
      ensures Snapshot() == p
    {
      height, width, marks := p.height, p.width, p.marks;
    }

    /** `image.copy()`: a fresh image with the same content. */
    method Copy() returns (c: Canvas)
      ensures fresh(c) && c.Snapshot() == Snapshot()
    {
      c := new Canvas(Snapshot());
    }

    /** One OpenCV drawing call on this image. */
    method Draw(cmd: DrawCommand)
      modifies this
      ensures marks == old(marks) + [cmd]
    {
      marks := marks + [cmd];
    }
  }
}
