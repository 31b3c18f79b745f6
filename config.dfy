/** The parts of a route's configuration the mirror core reads (package config).
    Loading, matching and naming live in that package and are handed to the
    core as outcomes. */
module Config {
  import opened Common

  /** A compression codec; gzip is the one the core acts on. */
  datatype Codec = GZipCodec | OtherCodec(name: string)

  /** config.Compression. */
  datatype Compression = Compression(codec: Codec)

  /** config.Resource: a storage location (URL) or a message topic. */
  datatype Resource = Resource(url: string, topic: string)

  /** config.Split: the line count per chunk. */
  datatype SplitPolicy = SplitPolicy(maxLines: int)

  /** config.Route: where matching objects come from and go to, how the
      destination is compressed, and whether the object is split into chunks. */
  datatype Route = Route(
    source: Resource,
    dest: Resource,
    compression: Option<Compression>,
    split: Option<SplitPolicy>)

  /** The route compresses its output with gzip. */
  predicate UsesGzip(route: Route) {
    route.compression.Some? && route.compression.value.codec == GZipCodec
  }
}
