/** Where a universe's Art-Net data goes (show.h). */
module Destinations {
  import opened Bytes

  /** Address 0 stands for the fallback destination. */
  datatype ArtNetDest = ArtNetDest(ip: u32, wireUniverse: u16)
}
