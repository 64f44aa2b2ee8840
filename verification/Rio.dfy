/** The robust I/O package of csapp.c: unbuffered transfers and the buffered
    reader, over descriptors that may deliver short counts, be interrupted, or
    fail. */
module Rio {
  const RIO_BUFSIZE: nat := 8192
  const INT_MAX: nat := 0x7fff_ffff

  /** What the operating system does at one read or write call. */
  datatype Event = Interrupted | Failure | Short(count: nat)

  datatype Errno = EINTR | OTHER

  function Min(a: nat, b: nat): nat {
    if a <= b then a else b
  }

  /** n bytes moved from the front of a stream into a buffer at off, and nothing
      else in the buffer changed. */
  ghost predicate Moved(text: string, rest: string, before: string, after: string, off: nat, n: nat) {
    && n <= |text| && rest == text[n..]
    && off + n <= |before| == |after|
    && forall k :: 0 <= k < |after| ==> after[k] == if off <= k < off + n then text[k - off] else before[k]
  }

  lemma MovedNone(text: string, before: string)
    ensures Moved(text, text, before, before, 0, 0)
  {
  }

  lemma MovedMore(text: string, mid: string, rest: string,
                  before: string, filled: string, after: string, n: nat, m: nat)
    requires Moved(text, mid, before, filled, 0, n) && Moved(mid, rest, filled, after, n, m)
    ensures Moved(text, rest, before, after, 0, n + m)
  {
  }

  lemma MovedOne(text: string, mid: string, rest: string, cell: string, cell': string, n: nat)
    requires n <= |text| && mid == text[n..] && |cell| == 1 && Moved(mid, rest, cell, cell', 0, 1)
    ensures n < |text| && rest == text[n + 1..] && cell'[0] == text[n]
  {
  }

  /** memcpy(dst + off, src, |src|) of the first bytes of a stream */
  method Copy(dst: array<char>, off: nat, src: string, ghost text: string)
    requires off + |src| <= dst.Length && src <= text
    modifies dst
    ensures Moved(text, text[|src|..], old(dst[..]), dst[..], off, |src|)
  {
    for i := 0 to |src|
      invariant forall k :: 0 <= k < dst.Length ==>
        dst[k] == if off <= k < off + i then src[k - off] else old(dst[k])
    {
      dst[off + i] := src[i];
    }
  }

  /** *bufp++ = text[n], when the first n bytes of text are already there. */
  method PutNext(dst: array<char>, n: nat, ch: char, ghost text: string, ghost rest: string, ghost before: string)
    requires n < |text| && n < dst.Length == |before| && ch == text[n] && rest == text[n + 1..]
    requires Moved(text, text[n..], before, dst[..], 0, n)
    modifies dst
    ensures Moved(text, rest, before, dst[..], 0, n + 1)
  {
    dst[n] := ch;
  }

  /** An input descriptor. `unread` is what the peer has sent and nobody has read;
      `script` is how the next calls behave, and when it runs out every call
      transfers all it can. A read returns 0 only at end of file. */
  class Source {
    var unread: string
    var script: seq<Event>
    var errno: Errno

    constructor (unread: string, script: seq<Event>)
      ensures this.unread == unread && this.script == script
    {
      this.unread, this.script, errno := unread, script, OTHER;
    }

    /** read(fd, dst + off, n) */
    method Read(dst: array<char>, off: nat, n: nat) returns (rc: int)
      requires off + n <= dst.Length && n > 0
      modifies this, dst
      ensures -1 <= rc <= n
      ensures rc < 0 ==> unread == old(unread) && dst[..] == old(dst[..])
      ensures rc < 0 ==> |script| < |old(script)| && (errno == EINTR || Failure in old(script))
      ensures rc >= 0 ==> Moved(old(unread), unread, old(dst[..]), dst[..], off, rc)
      ensures rc == 0 <==> rc >= 0 && old(unread) == ""
      ensures |script| <= |old(script)| && (Failure in script ==> Failure in old(script))
    {
      var want := Min(n, |unread|);
      if script != [] {
        var e := script[0];
        assert e in script;
        script := script[1..];
        match e
        case Interrupted => errno := EINTR; return -1;
        case Failure => errno := OTHER; return -1;
        case Short(count) => want := Min(want, count + 1);
      }
      rc := want;
      Copy(dst, off, unread[..want], unread);
      unread := unread[want..];
    }
  }

  /** An output descriptor. A write may transfer nothing and report 0 without
      setting errno, which the loop in rio_writen reads all the same. */
  class Sink {
    var written: string
    var script: seq<Event>
    var errno: Errno

    constructor (script: seq<Event>)
      ensures this.written == "" && this.script == script && errno == OTHER
    {
      this.written, this.script, errno := "", script, OTHER;
    }

    /** write(fd, data, |data|) */
    method Write(data: string) returns (rc: int)
      requires data != ""
      modifies this
      ensures -1 <= rc <= |data|
      ensures written == old(written) + data[..if rc < 0 then 0 else rc]
      ensures rc <= 0 ==> |script| < |old(script)|
      ensures rc <= 0 && errno != EINTR ==> Failure in old(script) || Short(0) in old(script)
      ensures |script| <= |old(script)| && forall e :: e in script ==> e in old(script)
    {
      rc := |data|;
      if script != [] {
        var e := script[0];
        assert e in script;
        script := script[1..];
        match e
        case Interrupted => errno := EINTR; rc := -1;
        case Failure => errno := OTHER; rc := -1;
        case Short(count) => rc := Min(|data|, count);
      }
      written := written + data[..if rc < 0 then 0 else rc];
    }
  }

  /** rio_readn: without a hard error it reads the longest available prefix, up to
      n bytes; after a hard error what was consumed is in the caller's buffer. */
  method RioReadn(fd: Source, usrbuf: array<char>, n: nat) returns (rc: int)
    requires n <= usrbuf.Length
    modifies fd, usrbuf
    ensures Failure !in old(fd.script) ==> rc >= 0
    ensures rc >= 0 ==> rc == Min(n, |old(fd.unread)|)
    ensures rc >= 0 ==> Moved(old(fd.unread), fd.unread, old(usrbuf[..]), usrbuf[..], 0, rc)
    ensures rc < 0 ==> rc == -1 && exists k :: Moved(old(fd.unread), fd.unread, old(usrbuf[..]), usrbuf[..], 0, k)
  {
    ghost var text, before := fd.unread, usrbuf[..];
    MovedNone(text, before);
    var nleft := n;
    var bufp := 0;
    while nleft > 0
      invariant 0 <= nleft && 0 <= bufp && bufp + nleft == n
      invariant Moved(text, fd.unread, before, usrbuf[..], 0, bufp)
      invariant Failure in fd.script ==> Failure in old(fd.script)
      decreases |fd.script|, nleft
    {
      ghost var mid, filled := fd.unread, usrbuf[..];
      var nread := fd.Read(usrbuf, bufp, nleft);
      if nread < 0 {
        if fd.errno == EINTR {
          nread := 0;
        } else {
          return -1;
        }
      } else if nread == 0 {
        break;
      } else {
        MovedMore(text, mid, fd.unread, before, filled, usrbuf[..], bufp, nread);
      }
      nleft := nleft - nread;
      bufp := bufp + nread;
    }
    return n - nleft;
  }

  /** rio_writen: on success exactly the n bytes, once and in order; on failure a
      proper prefix of them. It can fail only if a write failed or wrote nothing. */
  method RioWriten(fd: Sink, usrbuf: string) returns (rc: int)
    modifies fd
    ensures rc == |usrbuf| || rc == -1
    ensures rc >= 0 ==> fd.written == old(fd.written) + usrbuf
    ensures rc < 0 ==> exists k :: 0 <= k < |usrbuf| && fd.written == old(fd.written) + usrbuf[..k]
    ensures Failure !in old(fd.script) && Short(0) !in old(fd.script) ==> rc == |usrbuf|
    ensures forall e :: e in fd.script ==> e in old(fd.script)
  {
    var nleft := |usrbuf|;
    var bufp := 0;
    while nleft > 0
      invariant 0 <= nleft && 0 <= bufp && bufp + nleft == |usrbuf|
      invariant fd.written == old(fd.written) + usrbuf[..bufp]
      invariant forall e :: e in fd.script ==> e in old(fd.script)
      decreases |fd.script|, nleft
    {
      var nwritten := fd.Write(usrbuf[bufp..]);
      if nwritten <= 0 {
        assert fd.written == old(fd.written) + usrbuf[..bufp];
        if fd.errno == EINTR {
          nwritten := 0;
        } else {
          return -1;
        }
      }
      assert usrbuf[..bufp + nwritten] == usrbuf[..bufp] + usrbuf[bufp..][..nwritten];
      nleft := nleft - nwritten;
      bufp := bufp + nwritten;
    }
    assert usrbuf[..bufp] == usrbuf;
    return |usrbuf|;
  }

  /** The line at the front of s: through the first newline, at most max bytes. */
  function Line(s: string, max: nat): (line: string)
    ensures |line| <= max && line <= s
  {
    if s == "" || max == 0 then ""
    else if s[0] == '\n' then "\n"
    else [s[0]] + Line(s[1..], max - 1)
  }

  ghost predicate NoNewline(s: string, n: nat) {
    n <= |s| && forall k :: 0 <= k < n ==> s[k] != '\n'
  }

  /** Where a scan that has met no newline in n bytes may stop. */
  lemma {:induction false} LineLength(s: string, max: nat, n: nat)
    requires n <= max && NoNewline(s, n)
    ensures n == |s| || n == max ==> |Line(s, max)| == n
    ensures n < |s| && n < max && s[n] == '\n' ==> |Line(s, max)| == n + 1
  {
    if n > 0 {
      LineLength(s[1..], max - 1, n - 1);
    }
  }

  /** rio_t */
  class Reader {
    const fd: Source
    const buf: array<char>
    var cnt: int
    var bufptr: nat

    ghost predicate Valid()
      reads this
    {
      buf.Length == RIO_BUFSIZE && (cnt > 0 ==> bufptr + cnt <= buf.Length)
    }

    /** The stream still to be delivered: buffered bytes, then unread ones. */
    ghost function Pending(): string
      reads this, fd, buf
      requires Valid()
    {
      (if cnt > 0 then buf[bufptr..bufptr + cnt] else "") + fd.unread
    }

    /** rio_readinitb */
    constructor (fd: Source)
      ensures Valid() && fresh(buf) && this.fd == fd && Pending() == fd.unread
    {
      this.fd := fd;
      cnt, bufptr := 0, 0;
      buf := new char[RIO_BUFSIZE];
    }

    /** The refill loop of rio_read: 1 with bytes buffered, 0 at end of file. */
    method Refill() returns (rc: int)
      requires Valid()
      modifies this, fd, buf
      ensures Valid() && Pending() == old(Pending())
      ensures rc == 1 || rc == 0 || rc == -1
      ensures rc == 1 ==> cnt > 0
      ensures rc == 0 ==> Pending() == ""
      ensures rc < 0 ==> Failure in old(fd.script)
      ensures Failure in fd.script ==> Failure in old(fd.script)
    {
      while cnt <= 0
        invariant Valid() && Pending() == old(Pending())
        invariant Failure in fd.script ==> Failure in old(fd.script)
        decreases |fd.script|, if cnt <= 0 then 1 else 0
      {
        cnt := fd.Read(buf, 0, RIO_BUFSIZE);
        if cnt < 0 {
          if fd.errno != EINTR {
            return -1;
          }
        } else if cnt == 0 {
          return 0;
        } else {
          bufptr := 0;
          assert buf[0..cnt] + fd.unread == old(Pending());
        }
      }
      return 1;
    }

    /** rio_read: between 1 and n bytes, or 0 at end of file. */
    method RioRead(usrbuf: array<char>, off: nat, n: nat) returns (rc: int)
      requires Valid() && usrbuf != buf && 1 <= n <= INT_MAX && off + n <= usrbuf.Length
      modifies this, fd, buf, usrbuf
      ensures Valid() && -1 <= rc <= n
      ensures rc < 0 ==> Pending() == old(Pending()) && usrbuf[..] == old(usrbuf[..]) && Failure in old(fd.script)
      ensures rc >= 0 ==> Moved(old(Pending()), Pending(), old(usrbuf[..]), usrbuf[..], off, rc)
      ensures rc == 0 <==> rc >= 0 && old(Pending()) == ""
      ensures Failure in fd.script ==> Failure in old(fd.script)
    {
      ghost var text := Pending();
      var ready := Refill();
      if ready <= 0 {
        return ready;
      }
      var count := n;
      if cnt < n {
        count := cnt;
      }
      assert text == buf[bufptr..bufptr + cnt] + fd.unread;
      Copy(usrbuf, off, buf[bufptr..bufptr + count], text);
      bufptr := bufptr + count;
      cnt := cnt - count;
      assert Pending() == text[count..];
      return count;
    }

    /** rio_readnb: without a hard error, the next min(n, available) bytes of the
        stream, however it arrived. */
    method RioReadnb(usrbuf: array<char>, n: nat) returns (rc: int)
      requires Valid() && usrbuf != buf && n <= INT_MAX && n <= usrbuf.Length
      modifies this, fd, buf, usrbuf
      ensures Valid()
      ensures Failure !in old(fd.script) ==> rc >= 0
      ensures rc >= 0 ==> rc == Min(n, |old(Pending())|)
      ensures rc >= 0 ==> Moved(old(Pending()), Pending(), old(usrbuf[..]), usrbuf[..], 0, rc)
      ensures rc < 0 ==> rc == -1 && exists k :: Moved(old(Pending()), Pending(), old(usrbuf[..]), usrbuf[..], 0, k)
      ensures Failure in fd.script ==> Failure in old(fd.script)
    {
      ghost var text, before := Pending(), usrbuf[..];
      MovedNone(text, before);
      var nleft := n;
      var bufp := 0;
      while nleft > 0
        invariant Valid() && 0 <= nleft && 0 <= bufp && bufp + nleft == n
        invariant Moved(text, Pending(), before, usrbuf[..], 0, bufp)
        invariant Failure in fd.script ==> Failure in old(fd.script)
        decreases nleft
      {
        var nread := ReadMore(usrbuf, bufp, nleft, text, before);
        if nread < 0 {
          return -1;
        } else if nread == 0 {
          break;
        }
        nleft := nleft - nread;
        bufp := bufp + nread;
      }
      return n - nleft;
    }

    /** rio_read once more, after n bytes of text have been moved. */
    method ReadMore(usrbuf: array<char>, n: nat, m: nat, ghost text: string, ghost before: string) returns (rc: int)
      requires Valid() && usrbuf != buf && 1 <= m <= INT_MAX && n + m <= usrbuf.Length
      requires Moved(text, Pending(), before, usrbuf[..], 0, n)
      modifies this, fd, buf, usrbuf
      ensures Valid() && -1 <= rc <= m
      ensures Moved(text, Pending(), before, usrbuf[..], 0, if rc < 0 then n else n + rc)
      ensures rc == 0 <==> rc >= 0 && n == |text|
      ensures rc < 0 ==> Failure in old(fd.script)
      ensures Failure in fd.script ==> Failure in old(fd.script)
    {
      ghost var mid, filled := Pending(), usrbuf[..];
      rc := RioRead(usrbuf, n, m);
      if rc >= 0 {
        MovedMore(text, mid, Pending(), before, filled, usrbuf[..], n, rc);
      }
    }

    /** rio_readlineb: the next line of the stream, cut at maxlen - 1 bytes and
        NUL-terminated. At end of file it returns 0 and stores nothing. */
    method RioReadlineb(usrbuf: array<char>, maxlen: nat) returns (rc: int)
      requires Valid() && usrbuf != buf && 1 <= maxlen <= INT_MAX && maxlen <= usrbuf.Length
      modifies this, fd, buf, usrbuf
      ensures Valid()
      ensures Failure !in old(fd.script) ==> rc >= 0
      ensures rc >= 0 ==> rc == |Line(old(Pending()), maxlen - 1)| && Pending() == old(Pending())[rc..]
      ensures rc > 0 ==> usrbuf[..] == old(Pending())[..rc] + ['\0'] + old(usrbuf[rc + 1..])
      ensures rc > 0 ==> usrbuf[..rc] == Line(old(Pending()), maxlen - 1) && usrbuf[rc] == '\0'
      ensures rc == 0 && maxlen > 1 ==> usrbuf[..] == old(usrbuf[..])
      ensures rc < 0 ==> rc == -1 && exists k :: Moved(old(Pending()), Pending(), old(usrbuf[..]), usrbuf[..], 0, k)
      ensures Failure in fd.script ==> Failure in old(fd.script)
    {
      ghost var text, before := Pending(), usrbuf[..];
      MovedNone(text, before);
      var c := new char[1];
      var n, bufp := ReadThroughNewline(c, usrbuf, maxlen, text, before);
      if n < 0 {
        return -1;
      }
      if n == 1 && maxlen > 1 {
        return 0;
      }
      PutNul(usrbuf, bufp, text, Pending(), before);
      return n - 1;
    }

    /** The loop of rio_readlineb; n and bufp as it leaves them, n < 0 on error. */
    method ReadThroughNewline(c: array<char>, usrbuf: array<char>, maxlen: nat,
                              ghost text: string, ghost before: string)
      returns (n: int, bufp: nat)
      requires Valid() && usrbuf != buf && c != buf && c != usrbuf && c.Length == 1
      requires 1 <= maxlen <= INT_MAX && maxlen <= usrbuf.Length
      requires Moved(text, Pending(), before, usrbuf[..], 0, 0) && |before| == usrbuf.Length
      modifies this, fd, buf, usrbuf, c
      ensures Valid() && bufp < usrbuf.Length
      ensures Moved(text, Pending(), before, usrbuf[..], 0, bufp)
      ensures n >= 0 ==> n == bufp + 1 && bufp == |Line(text, maxlen - 1)|
      ensures n < 0 ==> Failure in old(fd.script)
      ensures Failure in fd.script ==> Failure in old(fd.script)
    {
      n, bufp := 1, 0;
      while n < maxlen
        invariant Valid() && 1 <= n <= maxlen && bufp == n - 1
        invariant Moved(text, Pending(), before, usrbuf[..], 0, bufp) && NoNewline(text, bufp)
        invariant Failure in fd.script ==> Failure in old(fd.script)
      {
        var rc := ReadChar(c, usrbuf, bufp, text, before, maxlen - 1);
        if rc <= 0 {
          n := if rc == 0 then n else rc;
          return;
        }
        n, bufp := n + 1, bufp + 1;
        if c[0] == '\n' {
          return;
        }
      }
      LineLength(text, maxlen - 1, bufp);
    }

    /** rio_read(rp, &c, 1) and, if it gave a byte, *bufp = c. */
    method ReadChar(c: array<char>, usrbuf: array<char>, n: nat,
                    ghost text: string, ghost before: string, ghost max: nat)
      returns (rc: int)
      requires Valid() && usrbuf != buf && c != buf && c != usrbuf && c.Length == 1 && n < usrbuf.Length
      requires Moved(text, Pending(), before, usrbuf[..], 0, n) && NoNewline(text, n) && n < max
      modifies this, fd, buf, usrbuf, c
      ensures Valid() && -1 <= rc <= 1
      ensures Moved(text, Pending(), before, usrbuf[..], 0, if rc == 1 then n + 1 else n)
      ensures rc == 1 && c[0] != '\n' ==> NoNewline(text, n + 1)
      ensures rc == 1 && c[0] == '\n' ==> |Line(text, max)| == n + 1
      ensures rc == 0 ==> |Line(text, max)| == n
      ensures rc < 0 ==> Failure in old(fd.script)
      ensures Failure in fd.script ==> Failure in old(fd.script)
    {
      ghost var mid, cell := Pending(), c[..];
      LineLength(text, max, n);
      rc := RioRead(c, 0, 1);
      if rc == 1 {
        MovedOne(text, mid, Pending(), cell, c[..], n);
        PutNext(usrbuf, n, c[0], text, Pending(), before);
      }
    }
  }

  /** *bufp = 0, after n bytes of text have been moved. */
  method PutNul(dst: array<char>, n: nat, ghost text: string, ghost rest: string, ghost before: string)
    requires n < dst.Length && Moved(text, rest, before, dst[..], 0, n)
    modifies dst
    ensures dst[..] == text[..n] + ['\0'] + before[n + 1..]
  {
    dst[n] := '\0';
  }
}
