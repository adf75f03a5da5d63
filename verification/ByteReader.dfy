/** A reader's view of a byte string, and fields of fixed width read from it. */
module ByteReader {
  import opened Base
  import opened Crc
  import opened Bytes

  /** Bytes and how many of them have been consumed. */
  datatype Cursor = Cursor(bytes: seq<Byte>, position: nat)

  datatype Short = TooShort

  function Advance(c: Cursor, n: nat): Cursor {
    c.(position := c.position + n)
  }

  /** The next bytes are exactly `b`. */
  predicate Has(c: Cursor, b: seq<Byte>) {
    c.position + |b| <= |c.bytes| && c.bytes[c.position..c.position + |b|] == b
  }

  function Take(c: Cursor, n: nat): (r: Result<(seq<Byte>, Cursor), Short>)
    ensures r.Ok? ==> r.value.1 == Advance(c, n) && |r.value.0| == n
  {
    if c.position + n > |c.bytes| then Err(TooShort)
    else Ok((c.bytes[c.position..c.position + n], Advance(c, n)))
  }

  function TakeInt(c: Cursor, k: nat): (r: Result<(nat, Cursor), Short>)
    ensures r.Ok? ==> r.value.1 == Advance(c, k) && r.value.0 < Pow256(k)
  {
    var t := Take(c, k);
    if t.Err? then Err(t.error)
    else
      FromLeBound(t.value.0);
      Ok((FromLe(t.value.0), t.value.1))
  }

  lemma HasConcat(c: Cursor, a: seq<Byte>, b: seq<Byte>)
    ensures Has(c, a + b) <==> Has(c, a) && Has(Advance(c, |a|), b)
  {
    if c.position + |a| + |b| <= |c.bytes| {
      var i, j, k := c.position, c.position + |a|, c.position + |a| + |b|;
      assert c.bytes[i..k] == c.bytes[i..j] + c.bytes[j..k];
      if Has(c, a + b) {
        assert c.bytes[i..j] == (a + b)[..|a|] && c.bytes[j..k] == (a + b)[|a|..];
      }
    }
  }

  lemma TakeIff(c: Cursor, b: seq<Byte>, n: nat, d: Cursor)
    ensures Take(c, n) == Ok((b, d)) <==> |b| == n && Has(c, b) && d == Advance(c, n)
  {
  }

  /** Reading an integer succeeds with `x` exactly when its bytes come next. */
  lemma TakeIntIff(c: Cursor, x: nat, k: nat, d: Cursor)
    requires x < Pow256(k)
    ensures TakeInt(c, k) == Ok((x, d)) <==> Has(c, Le(x, k)) && d == Advance(c, k)
  {
    hide Pow256, FromLe, Le;
    if c.position + k <= |c.bytes| {
      LeBijection(x, c.bytes[c.position..c.position + k], k);
    }
  }
}
