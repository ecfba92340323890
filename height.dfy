/** The vertex shader's `getHeight`: world xy to a texture coordinate over the
    fixed `[-2000, 2000]^2` bound, and the two-channel height decode. The texture
    lookup itself is a parameter: a function from a texture coordinate to the
    channel bytes it yields. */
module HeightSampler {

  /** Half the side of the world square the height field and overlay cover. */
  const WORLD_BOUND: real := 2000.0

  type Byte = b: nat | b < 256

  /** The channel bytes a texture lookup yields. */
  datatype Texel = Texel(r: Byte, g: Byte, b: Byte)

  /** A texture: its lookup at a normalised coordinate. */
  type Texture = (real, real) -> Texel

  /** The `[0, 1]` float a shader reads for a channel byte. */
  function Normalise(c: Byte): (v: real)
    ensures 0.0 <= v <= 1.0
  {
    c as real / 255.0
  }

  /** `(p + 2000) / 4000`: one axis of the texture coordinate. */
  function TexCoord(p: real): (st: real)
    ensures 0.0 <= st <= 1.0 <==> -WORLD_BOUND <= p <= WORLD_BOUND
  {
    (p + WORLD_BOUND) / (2.0 * WORLD_BOUND)
  }

  /** `((r * 255) + g) * 255` on the normalised red and green channels. */
  function Decode(r: real, g: real): real {
    (r * 255.0 + g) * 255.0
  }

  /** On channel bytes the decode is `255 * R + G`, red the high part, and
      lies in `[0, 65280]`. */
  lemma DecodeOfBytes(r: Byte, g: Byte)
    ensures Decode(Normalise(r), Normalise(g)) == (255 * r + g) as real
    ensures 0.0 <= Decode(Normalise(r), Normalise(g)) <= 65280.0
  {
    var nr, ng := Normalise(r), Normalise(g);
    assert nr * 255.0 == r as real;
    assert ng * 255.0 == g as real;
  }

  /** `getHeight` at world position `(x, y)`. */
  function GetHeight(x: real, y: real, heightData: Texture): (h: real)
    ensures var t := heightData(TexCoord(x), TexCoord(y));
      h == (255 * t.r + t.g) as real
    ensures 0.0 <= h <= 65280.0
  {
    var t := heightData(TexCoord(x), TexCoord(y));
    DecodeOfBytes(t.r, t.g);
    Decode(Normalise(t.r), Normalise(t.g))
  }

  /** Red 100 and green 50 decode to `255 * 100 + 50`. */
  lemma DecodeExample()
    ensures Decode(Normalise(100), Normalise(50)) == 25550.0
  {
    DecodeOfBytes(100, 50);
  }

  /** The decode is not injective: green 255 under red 0 reads as red 1. */
  lemma DecodeCollides()
    ensures Decode(Normalise(0), Normalise(255)) == Decode(Normalise(1), Normalise(0))
  {
    DecodeOfBytes(0, 255);
    DecodeOfBytes(1, 0);
  }
}
