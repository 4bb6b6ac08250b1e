/**
 * The pixel format loadTextureFromFile hands to glTexImage2D, chosen from the
 * number of channels the image decoder reports.
 */
module TextureFormat {

  import opened Wrappers

  datatype PixelFormat = Red | Rgb | Rgba {

    /** Components per pixel that the format describes. */
    function Components(): nat {
      match this
      case Red => 1
      case Rgb => 3
      case Rgba => 4
    }
  }

  /**
   * 1 channel gives GL_RED, 3 give GL_RGB, 4 give GL_RGBA; any other count
   * leaves the format unset (None).
   */
  function FormatFor(nrChannels: int): (r: Option<PixelFormat>)
    ensures r.Some? <==> nrChannels == 1 || nrChannels == 3 || nrChannels == 4
    ensures r.Some? ==> r.value.Components() == nrChannels
  {
    if nrChannels == 1 then Some(Red)
    else if nrChannels == 3 then Some(Rgb)
    else if nrChannels == 4 then Some(Rgba)
    else None
  }

  /** Every format is chosen for exactly its own component count. */
  lemma FormatForComponents(f: PixelFormat)
    ensures FormatFor(f.Components()) == Some(f)
  {
  }

}
