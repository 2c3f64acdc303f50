/**
 * Shared vocabulary of the model: bytes and buffers, the optional value
 * (`undefined` in JavaScript), the error classes the modelled code throws,
 * the results that carry them, decimal rendering of indices, and the
 * content-type tags of the tile content formats.
 */
module Base {

  newtype byte = x: int | 0 <= x < 256

  /** A Node.js `Buffer`: a finite sequence of bytes. */
  type Buffer = seq<byte>

  /** A value that may be `undefined`. */
  datatype Option<+T> = None | Some(value: T)

  /** The error classes the modelled code throws, each with its message. */
  datatype Error =
    | DeveloperError(message: string)       // `DeveloperError` of the base package
    | TilesetError(message: string)         // `TilesetError` of the tileset data layer
    | ImplicitTilingError(message: string)  // `ImplicitTilingError` of implicit tiling
    | PlainError(message: string)           // a plain JavaScript `Error`
    | InvalidUrl(message: string)           // the `TypeError` thrown by the URL constructor

  /** The outcome of a call that returns a value or throws. */
  datatype Result<+T> = Ok(value: T) | Err(error: Error)

  /** The outcome of a call that returns nothing or throws. */
  datatype Outcome = Done | Failed(error: Error)

  /** The character of a decimal digit. */
  function DigitChar(d: nat): (c: char)
    requires d < 10
    ensures '0' <= c <= '9'
  {
    ('0' as int + d) as char
  }

  /** JavaScript truthiness of an optional string: defined and not empty. */
  predicate IsTruthy(value: Option<string>)
  {
    value.Some? && value.value != ""
  }

  /** The decimal rendering of a natural number, as a JavaScript template literal `${n}` gives it. */
  function NatToString(n: nat): (s: string)
    ensures 1 <= |s|
    ensures n < 10 <==> |s| == 1
    ensures forall k :: 0 <= k < |s| ==> '0' <= s[k] <= '9'
    ensures s[0] == '0' ==> n == 0
  {
    if n < 10 then [DigitChar(n)] else NatToString(n / 10) + [DigitChar(n % 10)]
  }

  /** The number a string of decimal digits spells, read most significant digit first. */
  function DecValue(s: string): nat
    requires forall k :: 0 <= k < |s| ==> '0' <= s[k] <= '9'
  {
    if s == [] then 0 else DecValue(s[..|s| - 1]) * 10 + (s[|s| - 1] as int - '0' as int)
  }

  /** The rendering spells the number: reading its digits back gives `n`. */
  lemma {:induction false} NatToStringSpellsValue(n: nat)
    ensures DecValue(NatToString(n)) == n
  {
    if n >= 10 {
      var s := NatToString(n);
      assert s[..|s| - 1] == NatToString(n / 10);
      NatToStringSpellsValue(n / 10);
    } else {
      assert NatToString(n)[..0] == [];
    }
  }

  /** Distinct numbers have distinct decimal renderings. */
  lemma NatToStringInjective(a: nat, b: nat)
    requires NatToString(a) == NatToString(b)
    ensures a == b
  {
    NatToStringSpellsValue(a);
    NatToStringSpellsValue(b);
  }

  // The content-type tags of the tile content formats (`ContentDataTypes`).
  const ContentTypeB3dm: string := "CONTENT_TYPE_B3DM"
  const ContentTypeI3dm: string := "CONTENT_TYPE_I3DM"
  const ContentTypePnts: string := "CONTENT_TYPE_PNTS"
  const ContentTypeCmpt: string := "CONTENT_TYPE_CMPT"
  const ContentTypeVctr: string := "CONTENT_TYPE_VCTR"
  const ContentTypeGeom: string := "CONTENT_TYPE_GEOM"
  const ContentTypeGlb: string := "CONTENT_TYPE_GLB"
  const ContentTypeGltf: string := "CONTENT_TYPE_GLTF"
}
