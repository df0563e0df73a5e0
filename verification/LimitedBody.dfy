/** internal/dataplane/handler.go, limitedBody: a request body cut off at the
    listener's limit, over any reader that keeps the contract of io.Reader. */
module RequestBody {
  import opened Prelude

  datatype ReadError = EndOfFile | Broken | TooLarge

  function Smaller(a: nat, b: nat): nat { if a < b then a else b }

  /** Some stream of bytes. How much each call yields and whether it fails is up to pace and ending, which know the number of
      calls so far and what is asked or left: a call may return fewer bytes than asked, none at all, or bytes together with an
      error, but reports its end only at the end. */
  class Reader {
    const content: seq<bv8>
    const pace: (nat, nat) -> nat
    const ending: (nat, nat) -> Option<ReadError>
    var position: nat
    var calls: nat

    constructor (content: seq<bv8>, pace: (nat, nat) -> nat, ending: (nat, nat) -> Option<ReadError>)
      ensures this.content == content && this.pace == pace && this.ending == ending && position == 0
    {
      this.content, this.pace, this.ending := content, pace, ending;
      position, calls := 0, 0;
    }

    /** How many bytes the next call yields. */
    ghost function Yield(room: nat): (count: nat)
      requires position <= |content|
      reads this
      ensures count <= room && position + count <= |content|
    {
      Smaller(pace(calls, room), Smaller(room, |content| - position))
    }

    /** The error it returns with them. */
    ghost function Report(room: nat): Option<ReadError>
      requires position <= |content|
      reads this
    {
      var err := ending(calls, |content| - position);
      if err == Some(TooLarge) || (err == Some(EndOfFile) && position + Yield(room) < |content|) then None else err
    }

    method Read(buffer: array<bv8>, room: nat) returns (count: nat, err: Option<ReadError>)
      requires room <= buffer.Length && position <= |content|
      modifies this, buffer
      ensures count == old(Yield(room)) && err == old(Report(room)) && calls == old(calls) + 1
      ensures position == old(position) + count <= |content|
      ensures buffer[..count] == content[old(position)..position]
      ensures err == Some(EndOfFile) ==> position == |content|
      ensures err != Some(TooLarge)
    {
      count := Smaller(pace(calls, room), Smaller(room, |content| - position));
      err := ending(calls, |content| - position);
      for i := 0 to count
        invariant position == old(position) && calls == old(calls) && buffer[..i] == content[position..position + i]
        modifies buffer
      {
        buffer[i] := content[position + i];
      }
      position := position + count;
      if err == Some(TooLarge) || (err == Some(EndOfFile) && position < |content|) { err := None; }
      calls := calls + 1;
    }
  }

  class LimitedBody {
    const source: Reader
    const limit: nat
    var remaining: int
    /** All bytes handed to the caller so far. */
    ghost var delivered: seq<bv8>

    ghost predicate Valid()
      reads this, source
    {
      && |delivered| <= |source.content| && delivered == source.content[..|delivered|]
      && if remaining >= 0 then |delivered| + remaining == limit && source.position == |delivered|
         else remaining == -1 && |delivered| == limit < |source.content| && source.position <= |source.content|
    }

    constructor (source: Reader, limit: nat)
      requires source.position == 0
      ensures Valid() && this.source == source && this.limit == limit && delivered == [] && remaining == limit
    {
      this.source, this.limit, remaining := source, limit, limit;
      delivered := [];
    }

    /** What the source is asked for: no more than may still be delivered, and one byte when that is none. */
    ghost function Asked(size: nat): nat
      reads this
    {
      if remaining <= 0 then 1 else Smaller(size, remaining)
    }

    /** What has been delivered is a prefix of the stream no longer than the limit. The stream is reported too large exactly when
        it yields a byte past the limit, and then for good; every other read returns what the source returned, byte for byte and
        error for error. */
    method Read(buffer: array<bv8>) returns (count: nat, err: Option<ReadError>)
      requires Valid()
      modifies this`remaining, this`delivered, source, buffer
      ensures Valid() && count <= buffer.Length && delivered == old(delivered) + buffer[..count]
      ensures |delivered| <= limit && delivered <= source.content
      ensures err == Some(TooLarge) <==>
        old(remaining) == -1 || (old(remaining) == 0 && old(source.Yield(Asked(buffer.Length))) > 0)
      ensures err != Some(TooLarge) ==>
        count == old(source.Yield(Asked(buffer.Length))) && err == old(source.Report(Asked(buffer.Length)))
      ensures source.calls == old(source.calls) + if old(remaining) == -1 then 0 else 1
      ensures err == Some(EndOfFile) ==> delivered == source.content
      ensures err == Some(TooLarge) <==> remaining == -1
      ensures err == Some(TooLarge) ==> count == 0 && |source.content| > limit && delivered == source.content[..limit]
      ensures old(remaining) == -1 ==> source.position == old(source.position)
    {
      if remaining < 0 { return 0, Some(TooLarge); }
      if remaining == 0 {
        var probe := new bv8[1];
        var found, failure := source.Read(probe, 1);
        if found > 0 {
          remaining := -1;
          return 0, Some(TooLarge);
        }
        return 0, failure;
      }
      var room := if buffer.Length > remaining then remaining else buffer.Length;
      count, err := source.Read(buffer, room);
      remaining := remaining - count;
      delivered := delivered + buffer[..count];
    }
  }

  /** The reader yields something whenever it is asked for something and has it, never fails, and reports its end: with the last
      bytes or on the call after them. */
  ghost predicate Eager(source: Reader) {
    && (forall call: nat, room: nat | room > 0 :: source.pace(call, room) > 0)
    && (forall call: nat, left: nat :: source.ending(call, left) in {None, Some(EndOfFile)})
    && (forall call: nat :: source.ending(call, 0) == Some(EndOfFile))
  }

  /** Any sequence of reads with buffers of any sizes: a stream within the limit is never too large and whole once its end is
      reported; a longer one yields at most its first limit bytes, never reports its end, and stays too large from the first
      time it is reported so. From an eager reader, more non-empty buffers than the stream has bytes get all of it and its end,
      and more than the limit get the excess reported. */
  method ReadMany(body: LimitedBody, sizes: seq<nat>) returns (data: seq<bv8>, errors: seq<Option<ReadError>>)
    requires body.Valid() && body.delivered == [] && body.remaining == body.limit
    modifies body, body.source
    ensures |errors| == |sizes| && data <= body.source.content && |data| <= body.limit
    ensures |body.source.content| <= body.limit ==> Some(TooLarge) !in errors
    ensures Some(EndOfFile) in errors ==> data == body.source.content
    ensures Some(TooLarge) in errors ==> data == body.source.content[..body.limit] && |body.source.content| > body.limit
    ensures forall i, j | 0 <= i <= j < |errors| && errors[i] == Some(TooLarge) :: errors[j] == Some(TooLarge)
    ensures Eager(body.source) && 0 !in sizes && |body.source.content| <= body.limit && |sizes| > |body.source.content| ==>
      data == body.source.content && Some(EndOfFile) in errors
    ensures Eager(body.source) && 0 !in sizes && |body.source.content| > body.limit && |sizes| > body.limit ==>
      data == body.source.content[..body.limit] && Some(TooLarge) in errors
  {
    data, errors := [], [];
    ghost var all := body.source.content;
    for n := 0 to |sizes|
      invariant body.Valid() && |errors| == n && data == body.delivered
      invariant Some(EndOfFile) in errors ==> data == all
      invariant Some(TooLarge) in errors <==> body.remaining == -1
      invariant forall i, j | 0 <= i <= j < |errors| && errors[i] == Some(TooLarge) :: errors[j] == Some(TooLarge)
      invariant Eager(body.source) && 0 !in sizes ==> |data| >= Smaller(n, Smaller(|all|, body.limit))
      invariant Eager(body.source) && 0 !in sizes && |all| <= body.limit && n > |all| ==> Some(EndOfFile) in errors
      invariant Eager(body.source) && 0 !in sizes && |all| > body.limit && n > body.limit ==> Some(TooLarge) in errors
    {
      assert sizes[n] in sizes;
      var buffer := new bv8[sizes[n]];
      var count, err := body.Read(buffer);
      data := data + buffer[..count];
      errors := errors + [err];
    }
  }
}
