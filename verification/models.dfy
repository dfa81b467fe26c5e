/** The request shape shared by both endpoints, and the fixed-width integers it uses. */
module Models {
  import opened Wrappers

  /** Rust's `u32`: the type of the requested SVG dimension. */
  newtype u32 = x: int | 0 <= x < 0x1_0000_0000

  /** One byte of a serialised image. */
  newtype byte = x: int | 0 <= x < 0x100

  /**
   * The request: every field optional. The struct declaration lists five of
   * these fields, the handlers also read `email` and `address`, so the model
   * takes the seven-field superset.
   */
  datatype Info = Info(
    url: Option<string>,
    phone: Option<string>,
    email: Option<string>,
    address: Option<string>,
    foreground: Option<string>,
    background: Option<string>,
    dimension: Option<u32>)
  {
    /** `Info::default()`: a request with no field set. */
    static function Default(): (d: Info)
      ensures d.url.None? && d.phone.None? && d.email.None? && d.address.None?
      ensures d.foreground.None? && d.background.None? && d.dimension.None?
    {
      Info(None, None, None, None, None, None, None)
    }
  }
}
