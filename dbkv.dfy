/** The abstract key and value layout of the phrase index.
    The byte encoding of keys and values is not part of this model: a key is
    one of five kinds, told apart by its leading type tag, and a value is the
    logical content its serialized bytes stand for. */
module DbKv {
  import opened Wrappers

  /** Identifier of a logical corpus (a translation memory). */
  type Domain = int

  /** Identifier of a vocabulary entry; a sentence is a sequence of them. */
  type Word = int

  /** Opaque offset of an aligned sentence pair in the corpus storage. */
  type Location = nat

  /** One occurrence of a source phrase: which domain, which stored sentence
      pair, and the word position at which the phrase starts. */
  datatype Posting = Posting(domain: Domain, location: Location, start: nat)

  /** Last consumed offset per ingestion channel. */
  type StreamOffsets = map<int, int>

  /** Extent of the corpus storage that has been made durable. */
  datatype StorageManifest = StorageManifest(extent: nat)

  /** The five key kinds of the index:
      - Prefix: source posting list of `words`, partitioned by domain;
      - Count: domain-agnostic counter of the target n-gram `words`;
      - Streams, Manifest: the two singleton metadata keys;
      - Deletion: marker that `domain` waits for the garbage collector. */
  datatype Key =
    | Prefix(domain: Domain, words: seq<Word>)
    | Count(words: seq<Word>)
    | Streams
    | Manifest
    | Deletion(domain: Domain)

  /** The logical content of a stored value. */
  datatype Value =
    | PostingList(postings: seq<Posting>)
    | Counter(n: int)
    | StreamsValue(offsets: StreamOffsets)
    | ManifestValue(manifest: StorageManifest)
    | Empty

  /** Reading a value as a posting list; any other content reads as no postings. */
  function PostingsOf(v: Value): seq<Posting>
  {
    if v.PostingList? then v.postings else []
  }

  /** Reading an optional value as a posting list; absence reads as no postings. */
  function PostingsOfOpt(v: Option<Value>): seq<Posting>
  {
    if v.Some? then PostingsOf(v.value) else []
  }

  /** Reading a value as a counter; any other content reads as zero. */
  function CountOf(v: Value): int
  {
    if v.Counter? then v.n else 0
  }

  /** Reading an optional value as a counter; absence reads as zero. */
  function CountOfOpt(v: Option<Value>): int
  {
    if v.Some? then CountOf(v.value) else 0
  }

  /** Reading an optional value as stream offsets; anything else reads as none. */
  function StreamsOf(v: Option<Value>): StreamOffsets
  {
    if v.Some? && v.value.StreamsValue? then v.value.offsets else map[]
  }
}
