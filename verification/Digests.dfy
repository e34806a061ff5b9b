/** What `getFileDigest` feeds to the hash. The file is read into one fixed buffer and the whole buffer
    is hashed after each read, so a short last read is followed by whatever the buffer held before. */
module Digests {
  import opened Records
  import Text

  const CHUNK_SIZE: nat := 2 * 1024 * 1024

  /** A buffer of the given size full of zero bytes. */
  function Zeros(size: nat): (s: string)
    ensures |s| == size && forall i :: 0 <= i < size ==> s[i] == '\0'
  {
    seq(size, _ => '\0')
  }

  function Fill(buffer: string, content: string): (r: string)
    ensures |r| == |buffer|
  {
    if |content| < |buffer| then content + buffer[|content|..] else content[..|buffer|]
  }

  /** The bytes hashed for `content`, read in pieces of `|buffer|`. */
  function Stream(buffer: string, content: string): string
    requires buffer != ""
    decreases content
  {
    if content == "" then ""
    else if |content| <= |buffer| then Fill(buffer, content)
    else Fill(buffer, content) + Stream(Fill(buffer, content), content[|buffer|..])
  }

  function Digest(H: Hasher, content: string): string {
    H(Stream(Zeros(CHUNK_SIZE), content))
  }

  lemma {:induction false} StreamLength(buffer: string, content: string)
    requires buffer != ""
    ensures content != "" ==> |Stream(buffer, content)| >= |content|
    ensures content == "" <==> Stream(buffer, content) == ""
    decreases content
  {
    if |content| > |buffer| {
      StreamLength(Fill(buffer, content), content[|buffer|..]);
    }
  }

  /** Contents of one size have the same hashed stream only when they are equal. */
  lemma {:induction false} StreamInjectiveOnSize(buffer: string, a: string, b: string)
    requires buffer != "" && |a| == |b|
    requires Stream(buffer, a) == Stream(buffer, b)
    ensures a == b
    decreases a
  {
    var n := |buffer|;
    if |a| <= n {
      assert a == Fill(buffer, a)[..|a|];
      assert b == Fill(buffer, b)[..|b|];
    } else {
      var restA, restB := Stream(Fill(buffer, a), a[n..]), Stream(Fill(buffer, b), b[n..]);
      assert Stream(buffer, a)[..n] == Fill(buffer, a) && Stream(buffer, a)[n..] == restA;
      assert Stream(buffer, b)[..n] == Fill(buffer, b) && Stream(buffer, b)[n..] == restB;
      StreamInjectiveOnSize(Fill(buffer, a), a[n..], b[n..]);
      assert a == a[..n] + a[n..] && b == b[..n] + b[n..];
    }
  }

  /** A content is the front of its stream. */
  lemma {:induction false} StreamStarts(buffer: string, content: string)
    requires buffer != ""
    ensures |content| <= |Stream(buffer, content)| && Stream(buffer, content)[..|content|] == content
    decreases content
  {
    var n := |buffer|;
    if |content| > n {
      var rest := Stream(Fill(buffer, content), content[n..]);
      StreamStarts(Fill(buffer, content), content[n..]);
      assert Stream(buffer, content)[..|content|] == content[..n] + rest[..|content| - n];
      assert content == content[..n] + content[n..];
    }
  }

  /** What is hashed byte by byte: the content, and behind it, up to the end of the last buffer, what the buffer held
      there: the content one buffer earlier or, in the first buffer, whatever the buffer was made with. */
  lemma {:induction false} StreamBytes(buffer: string, content: string, i: nat)
    requires buffer != "" && i < |Stream(buffer, content)|
    ensures var s, n := Stream(buffer, content), |buffer|;
      && |content| <= |s| < |content| + n && |s| % n == 0
      && s[i] == if i < |content| then content[i] else if i < n then buffer[i] else content[i - n]
    decreases content
  {
    var n := |buffer|;
    if |content| > n {
      var first, rest := Fill(buffer, content), Stream(Fill(buffer, content), content[n..]);
      StreamLength(first, content[n..]);
      StreamBytes(first, content[n..], if i < n then 0 else i - n);
      assert (|rest| + n) % n == 0 by { WholeBuffers(|rest|, n); }
    }
  }

  lemma WholeBuffers(a: nat, n: nat)
    requires n > 0 && a % n == 0
    ensures (a + n) % n == 0
  {
    var k := a / n;
    assert a == n * k;
    assert a + n == (k + 1) * n;
    Text.Quotient(a + n, n, k + 1, 0);
    assert a + n == n * ((a + n) / n) + (a + n) % n;
    assert n * (k + 1) == (k + 1) * n;
  }

  /** A longer content has the stream of a shorter one exactly when it goes on with the bytes that the stream has
      there: those the buffer still held from before. */
  lemma {:induction false} SameStream(buffer: string, a: string, b: string)
    requires buffer != "" && |a| <= |b|
    ensures Stream(buffer, a) == Stream(buffer, b)
            <==> |b| <= |Stream(buffer, a)| && b == Stream(buffer, a)[..|b|]
    decreases a
  {
    var n := |buffer|;
    if a == "" || |b| <= n {
      LastBuffer(buffer, a, b);
    } else if |a| <= n {
      assert |Stream(buffer, a)| == n;
      StreamStarts(buffer, b);
    } else {
      if a[..n] == b[..n] {
        SameStream(a[..n], a[n..], b[n..]);
        FullBuffer(a[..n], Stream(a[..n], a[n..]), Stream(a[..n], b[n..]), b);
      } else {
        assert Stream(buffer, a)[..n] == a[..n] && Stream(buffer, b)[..n] == b[..n];
        assert |b| <= |Stream(buffer, a)| ==> Stream(buffer, a)[..|b|][..n] == a[..n];
      }
    }
  }

  /** One full buffer in front changes nothing. */
  lemma FullBuffer(first: string, x: string, y: string, b: string)
    requires |b| >= |first| && b[..|first|] == first
    ensures first + x == first + y <==> x == y
    ensures |b| <= |first + x| && b == (first + x)[..|b|]
            <==> |b| - |first| <= |x| && b[|first|..] == x[..|b| - |first|]
  {
    var n := |first|;
    assert (first + x)[n..] == x && (first + y)[n..] == y;
    assert b == first + b[n..];
    if |b| - n <= |x| {
      assert (first + x)[..|b|] == first + x[..|b| - n];
      assert (first + x[..|b| - n])[n..] == x[..|b| - n];
    }
  }

  lemma LastBuffer(buffer: string, a: string, b: string)
    requires buffer != "" && |a| <= |b|
    requires a == "" || |b| <= |buffer|
    ensures Stream(buffer, a) == Stream(buffer, b)
            <==> |b| <= |Stream(buffer, a)| && b == Stream(buffer, a)[..|b|]
  {
    StreamLength(buffer, b);
    if a != "" {
      var fa, fb := Fill(buffer, a), Fill(buffer, b);
      assert fb[..|b|] == b && fb[|b|..] == buffer[|b|..] && fa[|b|..] == buffer[|b|..];
      assert fa == fa[..|b|] + fa[|b|..] && fb == fb[..|b|] + fb[|b|..];
    }
  }

  /** A zero byte after a short file goes unnoticed, whatever the hash function is. */
  lemma PaddingCollides(H: Hasher, content: string)
    requires 0 < |content| < CHUNK_SIZE
    ensures Digest(H, content) == Digest(H, content + ['\0'])
  {
    var buffer := Zeros(CHUNK_SIZE);
    assert Fill(buffer, content) == Fill(buffer, content + ['\0']);
  }
}
