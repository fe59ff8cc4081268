/** The reader objects of internal/data/generator.go, proved against the cursor machine of Readers. */
module Generator {
  import opened Basics
  import opened Streams
  import opened Readers

  const BUFFER_SIZE: nat := 8192
  const COPY_BUFFER_SIZE: nat := 32768

  /** What the generator takes from outside: math/rand as a function of the seed, the mixing of a key into a seed, and SHA-256 with hex encoding. */
  datatype Library = Library(
    rand: Int64 -> Stream,
    mixKey: (Int64, string) -> Int64,
    sha256Hex: seq<byte> -> string)

  /** rand.Rand, whose Read hands out the bytes of one stream whatever the lengths asked for. */
  class Rng {
    const stream: Stream
    var drawn: nat

    constructor (stream: Stream)
      ensures this.stream == stream && drawn == 0
    {
      this.stream := stream;
      drawn := 0;
    }

    /** Fills buf[:n]. */
    method Read(buf: array<byte>, n: nat)
      requires n <= buf.Length
      modifies this, buf
      ensures drawn == old(drawn) + n
      ensures buf[..n] == Slice(stream, old(drawn), old(drawn) + n)
      ensures buf[n..] == old(buf[n..])
    {
      for i := 0 to n
        invariant drawn == old(drawn) + i
        invariant buf[..i] == Slice(stream, old(drawn), old(drawn) + i)
        invariant buf[n..] == old(buf[n..])
      {
        buf[i] := stream(drawn);
        drawn := drawn + 1;
      }
    }
  }

  class RandomReader {
    const library: Library
    const seed: Int64
    const size: nat
    const buf: array<byte>
    var rng: Rng
    var position: nat

    ghost function Source(): Stream
    {
      library.rand(seed)
    }

    ghost function CursorOf(): Cursor
      reads this, rng
    {
      Cursor(rng.drawn, position)
    }

    ghost function Repr(): set<object>
      reads this
    {
      {this, rng, buf}
    }

    ghost predicate Valid()
      reads this, rng
    {
      && ValidSize(size)
      && buf.Length == BUFFER_SIZE
      && rng.stream == Source()
      && ValidCursor(Random, size, CursorOf())
    }

    constructor (library: Library, key: string, baseSeed: Int64, size: nat)
      requires ValidSize(size)
      ensures Valid() && fresh(Repr())
      ensures this.size == size && this.library == library && seed == library.mixKey(baseSeed, key)
      ensures CursorOf() == Cursor(0, 0)
    {
      this.library := library;
      this.seed := library.mixKey(baseSeed, key);
      this.size := size;
      this.rng := new Rng(library.rand(library.mixKey(baseSeed, key)));
      this.buf := new byte[BUFFER_SIZE];
      this.position := 0;
    }

    /** Reads into p[:length] and returns the number of bytes, or signals io.EOF. */
    method Read(p: array<byte>, length: nat) returns (n: nat, eof: bool)
      requires Valid() && length <= p.Length && p != buf
      modifies Repr(), p
      ensures Valid() && rng == old(rng)
      ensures n <= length && p[n..] == old(p[n..])
      ensures (CursorOf(), if eof then EndOfFile else Data(p[..n]))
           == ReadStep(Source(), size, old(CursorOf()), length)
    {
      if position >= size {
        return 0, true;
      }
      n := Min(length, size - position);
      var i: nat := 0;
      while i < n
        invariant i <= n
        invariant rng == old(rng) && rng.drawn == old(rng.drawn) + i && position == old(position)
        invariant p[..i] == Slice(Source(), old(rng.drawn), old(rng.drawn) + i)
        invariant p[n..] == old(p[n..])
        decreases n - i
      {
        var chunk := Min(n - i, buf.Length);
        rng.Read(buf, chunk);
        ghost var before := p[..i];
        Copy(p, i, buf, chunk);
        SliceAppend(Source(), old(rng.drawn), old(rng.drawn) + i, old(rng.drawn) + i + chunk);
        assert p[..i + chunk] == before + buf[..chunk];
        i := i + chunk;
      }
      position := position + n;
      eof := false;
    }

    method Seek(offset: Int64, whence: Whence) returns (r: SeekResult)
      requires Valid()
      modifies Repr()
      ensures Valid() && fresh(Repr() - old(Repr()))
      ensures (CursorOf(), r) == SeekStep(Random, size, old(CursorOf()), offset, whence)
    {
      var newPos: Int64;
      match whence {
        case SeekStart => newPos := offset;
        case SeekCurrent => newPos := Add64(position, offset);
        case SeekEnd => newPos := Add64(size, offset);
        case Other => return InvalidWhence;
      }
      if newPos < 0 {
        return NegativePosition;
      }
      if newPos > size {
        newPos := size;
      }
      if newPos == 0 {
        rng := new Rng(library.rand(seed));
      } else if newPos < position {
        rng := new Rng(library.rand(seed));
        position := 0;
        FastForward(newPos);
        return Moved(position);
      }
      position := newPos;
      r := Moved(position);
    }

    /** io.CopyN(io.Discard, r, count): reads count bytes through a scratch buffer and drops them. */
    method FastForward(count: nat)
      requires Valid() && CursorOf() == Cursor(0, 0) && count <= size
      modifies Repr()
      ensures Valid() && rng == old(rng) && CursorOf() == Cursor(count, count)
    {
      var scratch := new byte[BUFFER_SIZE];
      while position < count
        invariant Valid() && rng == old(rng)
        invariant rng.drawn == position <= count
        decreases count - position
      {
        var n, eof := Read(scratch, Min(BUFFER_SIZE, count - position));
      }
    }
  }

  /** copy(p[at:], src[:n]) */
  method Copy(p: array<byte>, at: nat, src: array<byte>, n: nat)
    requires p != src && n <= src.Length && at + n <= p.Length
    modifies p
    ensures p[..at] == old(p[..at]) && p[at + n..] == old(p[at + n..])
    ensures p[at..at + n] == src[..n]
  {
    for k := 0 to n
      invariant p[..at] == old(p[..at]) && p[at + n..] == old(p[at + n..])
      invariant p[at..at + k] == src[..k]
    {
      p[at + k] := src[k];
    }
  }

  /** The pattern repeated for ever. */
  function Repeated(pattern: seq<byte>): Stream
    requires pattern != []
  {
    (i: nat) => pattern[i % |pattern|]
  }

  class FixedReader {
    const pattern: seq<byte>
    const size: nat
    var position: nat

    ghost predicate Valid()
      reads this
    {
      pattern != [] && ValidSize(size) && position <= size
    }

    ghost function CursorOf(): Cursor
      reads this
    {
      Cursor(position, position)
    }

    constructor (pattern: seq<byte>, size: nat)
      requires pattern != [] && ValidSize(size)
      ensures Valid() && this.pattern == pattern && this.size == size && position == 0
    {
      this.pattern := pattern;
      this.size := size;
      this.position := 0;
    }

    method Read(p: array<byte>, length: nat) returns (n: nat, eof: bool)
      requires Valid() && length <= p.Length
      modifies this, p
      ensures Valid() && n <= length && p[n..] == old(p[n..])
      ensures (CursorOf(), if eof then EndOfFile else Data(p[..n]))
           == ReadStep(Repeated(pattern), size, old(CursorOf()), length)
    {
      if position >= size {
        return 0, true;
      }
      n := Min(length, size - position);
      for i := 0 to n
        invariant position == old(position)
        invariant p[..i] == Slice(Repeated(pattern), position, position + i)
        invariant p[n..] == old(p[n..])
      {
        var offset := (position + i) % |pattern|;
        p[i] := pattern[offset];
      }
      position := position + n;
      eof := false;
    }

    method Seek(offset: Int64, whence: Whence) returns (r: SeekResult)
      requires Valid()
      modifies this
      ensures Valid()
      ensures (CursorOf(), r) == SeekStep(Fixed, size, old(CursorOf()), offset, whence)
    {
      var newPos: Int64;
      match whence {
        case SeekStart => newPos := offset;
        case SeekCurrent => newPos := Add64(position, offset);
        case SeekEnd => newPos := Add64(size, offset);
        case Other => return InvalidWhence;
      }
      if newPos < 0 {
        return NegativePosition;
      }
      if newPos > size {
        return BeyondSize;
      }
      position := newPos;
      r := Moved(position);
    }
  }

  // ---------------------------------------------------------------------------------------------

  /** A parsed --pattern argument. */
  datatype Pattern = RandomSeed(seed: Int64) | FixedBytes(bytes: seq<byte>)

  datatype Generator = Generator(seed: Int64, fixed: seq<byte>)

  function NewGenerator(p: Pattern): Option<Generator>
  {
    match p
    case RandomSeed(seed) => Some(Generator(seed, []))
    case FixedBytes(bytes) => if bytes == [] then None else Some(Generator(0, bytes))
  }

  function KindOf(g: Generator): Kind
  {
    if g.seed != 0 then Random else Fixed
  }

  /** The virtual byte stream behind a key. */
  function StreamOf(library: Library, g: Generator, key: string): Stream
  {
    if g.seed != 0 then library.rand(library.mixKey(g.seed, key))
    else if g.fixed != [] then Repeated(g.fixed)
    else Repeated([0])
  }

  /** The object the tool means to store under a key. */
  function Contents(library: Library, g: Generator, key: string, size: nat): seq<byte>
  {
    Slice(StreamOf(library, g, key), 0, size)
  }

  /** io.ReadSeeker: one of the two reader objects. */
  datatype ReadSeeker = RandomBody(random: RandomReader) | FixedBody(fixed: FixedReader)
  {
    ghost predicate Valid()
      reads if RandomBody? then {random, random.rng} else {fixed}
    {
      match this
      case RandomBody(r) => r.Valid()
      case FixedBody(r) => r.Valid()
    }

    ghost function Repr(): set<object>
      reads if RandomBody? then {random} else {fixed}
    {
      match this
      case RandomBody(r) => r.Repr()
      case FixedBody(r) => {r}
    }

    ghost function CursorOf(): Cursor
      reads if RandomBody? then {random, random.rng} else {fixed}
    {
      match this
      case RandomBody(r) => r.CursorOf()
      case FixedBody(r) => r.CursorOf()
    }

    function Size(): nat
    {
      match this
      case RandomBody(r) => r.size
      case FixedBody(r) => r.size
    }

    ghost function StreamBehind(): Stream
      requires FixedBody? ==> fixed.pattern != []
    {
      match this
      case RandomBody(r) => r.Source()
      case FixedBody(r) => Repeated(r.pattern)
    }
  }

  method Generate(library: Library, g: Generator, key: string, size: nat) returns (body: ReadSeeker)
    requires ValidSize(size)
    ensures body.Valid() && fresh(body.Repr()) && body.RandomBody? == (KindOf(g) == Random)
    ensures body.Size() == size && body.StreamBehind() == StreamOf(library, g, key)
    ensures g.seed != 0 ==> forall i: nat :: body.StreamBehind()(i) == library.rand(library.mixKey(g.seed, key))(i)
    ensures g.seed == 0 && g.fixed != [] ==> forall i: nat :: body.StreamBehind()(i) == g.fixed[i % |g.fixed|]
    ensures body.CursorOf() == Cursor(0, 0)
  {
    if g.seed != 0 {
      var r := new RandomReader(library, key, g.seed, size);
      body := RandomBody(r);
    } else {
      var r := new FixedReader(if g.fixed != [] then g.fixed else [0], size);
      body := FixedBody(r);
    }
  }

  /** io.Copy of the rest of a body: 32 KiB reads until io.EOF. */
  method CopyAll(body: ReadSeeker) returns (data: seq<byte>)
    requires body.Valid() && body.CursorOf().drawn == body.CursorOf().position
    modifies body.Repr()
    ensures body.Valid() && body.Repr() == old(body.Repr()) && body.CursorOf() == Cursor(body.Size(), body.Size())
    ensures data == Slice(body.StreamBehind(), old(body.CursorOf().position), body.Size())
  {
    var p := new byte[COPY_BUFFER_SIZE];
    data := [];
    ghost var start := body.CursorOf().position;
    ghost var position := start;
    var n, eof := 0, false;
    while !eof
      invariant body.Valid() && body.Repr() == old(body.Repr()) && p !in body.Repr()
      invariant start <= position <= body.Size() && body.CursorOf() == Cursor(position, position)
      invariant data == Slice(body.StreamBehind(), start, position)
      invariant eof ==> position == body.Size()
      decreases body.Size() - position, !eof
    {
      match body {
        case RandomBody(r) => n, eof := r.Read(p, p.Length);
        case FixedBody(r) => n, eof := r.Read(p, p.Length);
      }
      if !eof {
        SliceAppend(body.StreamBehind(), start, position, position + n);
        data := data + p[..n];
        position := position + n;
      }
    }
  }

  method GenerateAndHash(library: Library, g: Generator, key: string, size: nat)
    returns (body: ReadSeeker, hash: string)
    requires ValidSize(size)
    ensures body.Valid() && fresh(body.Repr()) && body.RandomBody? == (KindOf(g) == Random)
    ensures body.Size() == size && body.StreamBehind() == StreamOf(library, g, key)
    ensures body.CursorOf() == Cursor(0, 0)
    ensures hash == library.sha256Hex(Contents(library, g, key, size))
  {
    body := Generate(library, g, key, size);
    var data := CopyAll(body);
    hash := library.sha256Hex(data);
    match body {
      case RandomBody(r) => var _ := r.Seek(0, SeekStart);
      case FixedBody(r) => var _ := r.Seek(0, SeekStart);
    }
  }

  /** A shorter object is a prefix of a longer one under the same key. */
  lemma ContentsGrow(library: Library, g: Generator, key: string, m: nat, n: nat)
    requires m <= n
    ensures Contents(library, g, key, m) == Contents(library, g, key, n)[..m]
  {
  }

  /** A library under which the given key alone has ones for bytes. */
  function Distinguishing(key: string): Library
  {
    Library(
      (seed: Int64) => ((i: nat) => if seed == 1 then 1 else 0),
      (seed: Int64, k: string) => if k == key then 1 else 0,
      (data: seq<byte>) => "")
  }

  /** Exactly when two keys have the same contents under every library: a random object depends on its key. */
  lemma KeyMattersIff(p: Pattern, key: string, key': string, size: nat)
    requires NewGenerator(p).Some?
    ensures (forall library: Library ::
               Contents(library, NewGenerator(p).value, key, size) == Contents(library, NewGenerator(p).value, key', size))
       <==> p.FixedBytes? || p.seed == 0 || key == key' || size == 0
  {
    var g := NewGenerator(p).value;
    if p.RandomSeed? && p.seed != 0 && key != key' && size > 0 {
      var library := Distinguishing(key);
      assert Contents(library, g, key, size)[0] == 1 && Contents(library, g, key', size)[0] == 0;
    }
  }

  /** For a random seed the contents are the stream of the seed mixed with the key. */
  lemma RandomContentsAre(library: Library, seed: Int64, key: string, size: nat)
    requires seed != 0
    ensures NewGenerator(RandomSeed(seed)).Some?
    ensures var g := NewGenerator(RandomSeed(seed)).value;
            forall i :: 0 <= i < size ==> Contents(library, g, key, size)[i] == library.rand(library.mixKey(seed, key))(i)
  {
  }

  /** The key decides nothing for a fixed pattern: one sequence serves every key. */
  lemma FixedContentsIgnoreKey(library: Library, bytes: seq<byte>, key: string, key': string, size: nat)
    requires bytes != []
    ensures NewGenerator(FixedBytes(bytes)).Some?
    ensures var g := NewGenerator(FixedBytes(bytes)).value;
            && Contents(library, g, key, size) == Contents(library, g, key', size)
            && forall i :: 0 <= i < size ==> Contents(library, g, key, size)[i] == bytes[i % |bytes|]
  {
  }

  /** Seed 0 is accepted by NewGenerator but is taken as "not random": every object is all zeros. */
  lemma SeedZeroGeneratesZeros(library: Library, key: string, size: nat)
    ensures NewGenerator(RandomSeed(0)).Some?
    ensures var g := NewGenerator(RandomSeed(0)).value;
            forall i :: 0 <= i < size ==> Contents(library, g, key, size)[i] == 0
  {
  }
}
