/**
  The handshake byte-strings of src/Messages.py.  Each is the UTF-8
  encoding of its literal, exactly as the module-level constants are built.
*/
module Messages {
  import opened Text

  const HELLO: seq<byte> := EncodeUtf8("HELLO")
  const BLOCK: seq<byte> := EncodeUtf8("BLOCK")
  const EXIT: seq<byte> := EncodeUtf8("EXIT")
  const ECHO: seq<byte> := EncodeUtf8("ECHO")
  const GETKEY: seq<byte> := EncodeUtf8("GETKEY")
  const ISKEY: seq<byte> := EncodeUtf8("ISKEY")
  const DENY: seq<byte> := EncodeUtf8("DENY")
  const NULLSTR: seq<byte> := EncodeUtf8("")
  const UNKNOWN: seq<byte> := EncodeUtf8("???")
  const DBG_SHUTDOWN: seq<byte> := EncodeUtf8("DBG_SHUTDOWN")

  /** The literals the ten constants encode, in declaration order. */
  const LITERALS: seq<string> :=
    ["HELLO", "BLOCK", "EXIT", "ECHO", "GETKEY", "ISKEY", "DENY", "", "???", "DBG_SHUTDOWN"]

  /** The ten constants, in declaration order. */
  const MESSAGES: seq<seq<byte>> :=
    [HELLO, BLOCK, EXIT, ECHO, GETKEY, ISKEY, DENY, NULLSTR, UNKNOWN, DBG_SHUTDOWN]

  /** UTF-8 encoding is injective, so distinct literals give distinct constants. */
  lemma EncodeInjective(s: string, t: string)
    requires s != t
    ensures EncodeUtf8(s) != EncodeUtf8(t)
  {
    Utf8RoundTrip(s);
    Utf8RoundTrip(t);
  }

  /** For an all-ASCII string, the first `k` bytes of its encoding encode its first `k` characters. */
  lemma AsciiPrefix(s: string, k: nat)
    requires IsAscii(s) && k <= |s|
    ensures |EncodeUtf8(s)| == |s|
    ensures EncodeUtf8(s)[..k] == EncodeUtf8(s[..k])
  {
    assert IsAscii(s[..k]);
    Utf8OfAscii(s);
    Utf8OfAscii(s[..k]);
    var e, f := EncodeUtf8(s), EncodeUtf8(s[..k]);
    assert forall i :: 0 <= i < k ==> e[i] == f[i];
  }

  /** The empty message is the empty byte string, and UNKNOWN is three question marks. */
  lemma UtilityMessages()
    ensures NULLSTR == []
    ensures UNKNOWN == ['?' as int, '?' as int, '?' as int]
  {
    var u := EncodeUtf8("???");
    assert |u| == 3;
  }

  lemma LiteralsDistinct()
    ensures forall i, j :: 0 <= i < j < |LITERALS| ==> LITERALS[i] != LITERALS[j]
  {
    forall i, j | 0 <= i < j < |LITERALS| ensures LITERALS[i] != LITERALS[j] {
      if |LITERALS[i]| == |LITERALS[j]| {
        assert LITERALS[i][0] != LITERALS[j][0] || LITERALS[i][1] != LITERALS[j][1];
      }
    }
  }

  /** Each constant is the encoding of its literal. */
  lemma MessageAt(i: nat)
    requires i < |LITERALS|
    ensures i < |MESSAGES| && MESSAGES[i] == EncodeUtf8(LITERALS[i])
  {
    if i == 0 { assert LITERALS[i] == "HELLO"; }
    else if i == 1 { assert LITERALS[i] == "BLOCK"; }
    else if i == 2 { assert LITERALS[i] == "EXIT"; }
    else if i == 3 { assert LITERALS[i] == "ECHO"; }
    else if i == 4 { assert LITERALS[i] == "GETKEY"; }
    else if i == 5 { assert LITERALS[i] == "ISKEY"; }
    else if i == 6 { assert LITERALS[i] == "DENY"; }
    else if i == 7 { assert LITERALS[i] == ""; }
    else if i == 8 { assert LITERALS[i] == "???"; }
    else { assert LITERALS[i] == "DBG_SHUTDOWN"; }
  }

  /** No two constants are equal, so comparing a reply with them tells them apart. */
  lemma MessagesDistinct()
    ensures forall i, j :: 0 <= i < j < |MESSAGES| ==> MESSAGES[i] != MESSAGES[j]
  {
    LiteralsDistinct();
    forall i, j | 0 <= i < j < |MESSAGES| ensures MESSAGES[i] != MESSAGES[j] {
      MessageAt(i);
      MessageAt(j);
      EncodeInjective(LITERALS[i], LITERALS[j]);
    }
  }

  lemma LiteralsAscii()
    ensures forall i :: 0 <= i < |LITERALS| ==> IsAscii(LITERALS[i])
  {
  }

  lemma LiteralPrefixes()
    ensures forall i :: 0 <= i < |LITERALS| && LITERALS[i] != "ISKEY" && |LITERALS[i]| >= 5 ==>
              LITERALS[i][..5] != "ISKEY"
  {
    forall i | 0 <= i < |LITERALS| && LITERALS[i] != "ISKEY" && |LITERALS[i]| >= 5
      ensures LITERALS[i][..5] != "ISKEY"
    {
      assert LITERALS[i][0] != 'I';
    }
  }

  /** An ASCII string whose first five characters are not "ISKEY" does not encode to bytes starting with ISKEY. */
  lemma NotIsKeyPrefix(lit: string)
    requires IsAscii(lit)
    requires |lit| >= 5 ==> lit[..5] != "ISKEY"
    ensures !(|EncodeUtf8(lit)| >= 5 && EncodeUtf8(lit)[..5] == EncodeUtf8("ISKEY"))
  {
    Utf8OfAscii(lit);
    if |lit| >= 5 {
      AsciiPrefix(lit, 5);
      EncodeInjective(lit[..5], "ISKEY");
    }
  }

  /** ISKEY is five bytes long and is the only constant that starts with those five bytes. */
  lemma IsKeyPrefixUnique()
    ensures |ISKEY| == 5
    ensures forall i :: 0 <= i < |LITERALS| && LITERALS[i] != "ISKEY" ==>
              !(|EncodeUtf8(LITERALS[i])| >= 5 && EncodeUtf8(LITERALS[i])[..5] == ISKEY)
    ensures forall i :: 0 <= i < |MESSAGES| && MESSAGES[i] != ISKEY ==>
              !(|MESSAGES[i]| >= 5 && MESSAGES[i][..5] == ISKEY)
  {
    LiteralsAscii();
    LiteralPrefixes();
    AsciiPrefix("ISKEY", 5);
    forall i | 0 <= i < |LITERALS| && LITERALS[i] != "ISKEY"
      ensures !(|EncodeUtf8(LITERALS[i])| >= 5 && EncodeUtf8(LITERALS[i])[..5] == ISKEY)
    {
      NotIsKeyPrefix(LITERALS[i]);
    }
    forall i | 0 <= i < |MESSAGES| && MESSAGES[i] != ISKEY
      ensures !(|MESSAGES[i]| >= 5 && MESSAGES[i][..5] == ISKEY)
    {
      MessageAt(i);
    }
  }
}
