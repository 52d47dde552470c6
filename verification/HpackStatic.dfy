/**
 The static table of appendix A of RFC 7541 is an ordered list: written as lines, a name, a colon and a value, its
 entries increase byte by byte. No two of them can change places.
 */
module HpackStatic {
  import opened Bytes
  import opened HpackTable
  import opened Hpack

  /** The header as a line. */
  function Line(h: Header): seq<byte> { h.name + [58] + h.value }

  /** `a` sorts before `b`: behind a common beginning of `k` bytes it ends or has the smaller byte. */
  predicate BeforeAt(a: seq<byte>, b: seq<byte>, k: nat)
  {
    k <= |a| && k < |b| && a[..k] == b[..k] && (k == |a| || a[k] < b[k])
  }

  ghost predicate Before(a: seq<byte>, b: seq<byte>) { exists k: nat :: BeforeAt(a, b, k) }

  /** Two entries, as their texts show it. */
  lemma Ordered(name: string, value: string, name': string, value': string, k: nat)
    requires var a, b := name + ":" + value, name' + ":" + value';
      && k <= |a| && k < |b| && a[..k] == b[..k] && (k == |a| || a[k] < b[k] < 128 as char)
    ensures Before(Line(Entry(name, value)), Line(Entry(name', value')))
  {
    var a, b := name + ":" + value, name' + ":" + value';
    var x, y := Line(Entry(name, value)), Line(Entry(name', value'));
    assert x == Ascii(a) && y == Ascii(b);
    forall i | 0 <= i < k ensures x[i] == y[i] { assert a[i] == a[..k][i] && b[i] == b[..k][i]; }
    assert BeforeAt(x, y, k);
  }

  /** The entries, counted from 0. */
  function At(i: nat): Header
    requires i < 61
  {
    if i < 14 then StaticOne()[i]
    else if i < 29 then StaticTwo()[i - 14]
    else if i < 45 then StaticThree()[i - 29]
    else StaticFour()[i - 45]
  }

  lemma AtIsEntry(i: nat)
    requires i < 61
    ensures |StaticTable()| == 61 && StaticTable()[i] == At(i)
  {
    assert |StaticOne()| == 14 && |StaticTwo()| == 15 && |StaticThree()| == 16 && |StaticFour()| == 16;
    hide StaticOne, StaticTwo, StaticThree, StaticFour;
  }

  ghost predicate NextAbove(i: nat)
    requires i < 60
  {
    Before(Line(At(i)), Line(At(i + 1)))
  }

  lemma Pairs0To3()
    ensures NextAbove(0) && NextAbove(1) && NextAbove(2) && NextAbove(3)
  {
    hide Before, Line, Entry;
    Ordered(":authority", "", ":method", "GET", 1);
    Ordered(":method", "GET", ":method", "POST", 8);
    Ordered(":method", "POST", ":path", "/", 1);
    Ordered(":path", "/", ":path", "/index.html", 7);
  }

  lemma Pairs4To7()
    ensures NextAbove(4) && NextAbove(5) && NextAbove(6) && NextAbove(7)
  {
    hide Before, Line, Entry;
    Ordered(":path", "/index.html", ":scheme", "http", 1);
    Ordered(":scheme", "http", ":scheme", "https", 12);
    Ordered(":scheme", "https", ":status", "200", 2);
    Ordered(":status", "200", ":status", "204", 10);
  }

  lemma Pairs8To11()
    ensures NextAbove(8) && NextAbove(9) && NextAbove(10) && NextAbove(11)
  {
    hide Before, Line, Entry;
    Ordered(":status", "204", ":status", "206", 10);
    Ordered(":status", "206", ":status", "304", 8);
    Ordered(":status", "304", ":status", "400", 8);
    Ordered(":status", "400", ":status", "404", 10);
  }

  lemma Pairs12To15()
    ensures NextAbove(12) && NextAbove(13) && NextAbove(14) && NextAbove(15)
  {
    hide Before, Line, Entry;
    Ordered(":status", "404", ":status", "500", 8);
    Ordered(":status", "500", "accept-charset", "", 0);
    Ordered("accept-charset", "", "accept-encoding", "gzip, deflate", 7);
    Ordered("accept-encoding", "gzip, deflate", "accept-language", "", 7);
  }

  lemma Pairs16To19()
    ensures NextAbove(16) && NextAbove(17) && NextAbove(18) && NextAbove(19)
  {
    hide Before, Line, Entry;
    Ordered("accept-language", "", "accept-ranges", "", 7);
    Ordered("accept-ranges", "", "accept", "", 6);
    Ordered("accept", "", "access-control-allow-origin", "", 4);
    Ordered("access-control-allow-origin", "", "age", "", 1);
  }

  lemma Pairs20To23()
    ensures NextAbove(20) && NextAbove(21) && NextAbove(22) && NextAbove(23)
  {
    hide Before, Line, Entry;
    Ordered("age", "", "allow", "", 1);
    Ordered("allow", "", "authorization", "", 1);
    Ordered("authorization", "", "cache-control", "", 0);
    Ordered("cache-control", "", "content-disposition", "", 1);
  }

  lemma Pairs24To27()
    ensures NextAbove(24) && NextAbove(25) && NextAbove(26) && NextAbove(27)
  {
    hide Before, Line, Entry;
    Ordered("content-disposition", "", "content-encoding", "", 8);
    Ordered("content-encoding", "", "content-language", "", 8);
    Ordered("content-language", "", "content-length", "", 9);
    Ordered("content-length", "", "content-location", "", 9);
  }

  lemma Pairs28To31()
    ensures NextAbove(28) && NextAbove(29) && NextAbove(30) && NextAbove(31)
  {
    hide Before, Line, Entry;
    Ordered("content-location", "", "content-range", "", 8);
    Ordered("content-range", "", "content-type", "", 8);
    Ordered("content-type", "", "cookie", "", 2);
    Ordered("cookie", "", "date", "", 0);
  }

  lemma Pairs32To35()
    ensures NextAbove(32) && NextAbove(33) && NextAbove(34) && NextAbove(35)
  {
    hide Before, Line, Entry;
    Ordered("date", "", "etag", "", 0);
    Ordered("etag", "", "expect", "", 1);
    Ordered("expect", "", "expires", "", 3);
    Ordered("expires", "", "from", "", 0);
  }

  lemma Pairs36To39()
    ensures NextAbove(36) && NextAbove(37) && NextAbove(38) && NextAbove(39)
  {
    hide Before, Line, Entry;
    Ordered("from", "", "host", "", 0);
    Ordered("host", "", "if-match", "", 0);
    Ordered("if-match", "", "if-modified-since", "", 4);
    Ordered("if-modified-since", "", "if-none-match", "", 3);
  }

  lemma Pairs40To43()
    ensures NextAbove(40) && NextAbove(41) && NextAbove(42) && NextAbove(43)
  {
    hide Before, Line, Entry;
    Ordered("if-none-match", "", "if-range", "", 3);
    Ordered("if-range", "", "if-unmodified-since", "", 3);
    Ordered("if-unmodified-since", "", "last-modified", "", 0);
    Ordered("last-modified", "", "link", "", 1);
  }

  lemma Pairs44To47()
    ensures NextAbove(44) && NextAbove(45) && NextAbove(46) && NextAbove(47)
  {
    hide Before, Line, Entry;
    Ordered("link", "", "location", "", 1);
    Ordered("location", "", "max-forwards", "", 0);
    Ordered("max-forwards", "", "proxy-authenticate", "", 0);
    Ordered("proxy-authenticate", "", "proxy-authorization", "", 10);
  }

  lemma Pairs48To51()
    ensures NextAbove(48) && NextAbove(49) && NextAbove(50) && NextAbove(51)
  {
    hide Before, Line, Entry;
    Ordered("proxy-authorization", "", "range", "", 0);
    Ordered("range", "", "referer", "", 1);
    Ordered("referer", "", "refresh", "", 3);
    Ordered("refresh", "", "retry-after", "", 2);
  }

  lemma Pairs52To55()
    ensures NextAbove(52) && NextAbove(53) && NextAbove(54) && NextAbove(55)
  {
    hide Before, Line, Entry;
    Ordered("retry-after", "", "server", "", 0);
    Ordered("server", "", "set-cookie", "", 2);
    Ordered("set-cookie", "", "strict-transport-security", "", 1);
    Ordered("strict-transport-security", "", "transfer-encoding", "", 0);
  }

  lemma Pairs56To59()
    ensures NextAbove(56) && NextAbove(57) && NextAbove(58) && NextAbove(59)
  {
    hide Before, Line, Entry;
    Ordered("transfer-encoding", "", "user-agent", "", 0);
    Ordered("user-agent", "", "vary", "", 0);
    Ordered("vary", "", "via", "", 1);
    Ordered("via", "", "www-authenticate", "", 0);
  }

  /** Each entry of the table sorts before the next. */
  lemma StaticInOrder(i: nat)
    requires i < 60
    ensures |StaticTable()| == 61 && Before(Line(StaticTable()[i]), Line(StaticTable()[i + 1]))
  {
    hide Before, Line, At, StaticTable;
    AtIsEntry(i);
    AtIsEntry(i + 1);
    if i < 4 { Pairs0To3(); }
    else if i < 8 { Pairs4To7(); }
    else if i < 12 { Pairs8To11(); }
    else if i < 16 { Pairs12To15(); }
    else if i < 20 { Pairs16To19(); }
    else if i < 24 { Pairs20To23(); }
    else if i < 28 { Pairs24To27(); }
    else if i < 32 { Pairs28To31(); }
    else if i < 36 { Pairs32To35(); }
    else if i < 40 { Pairs36To39(); }
    else if i < 44 { Pairs40To43(); }
    else if i < 48 { Pairs44To47(); }
    else if i < 52 { Pairs48To51(); }
    else if i < 56 { Pairs52To55(); }
    else { Pairs56To59(); }
  }
}
