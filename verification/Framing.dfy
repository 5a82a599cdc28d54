/** Messages on a connection: the length-prefixed receive, over a stream that arrives in pieces and may end. */
module Framing {
  import opened Bytes
  import opened Wire

  /** What a receive finds outside the stream: how many bytes had arrived when it peeked, the contents of the
      peek buffer, and the contents of the array on its frame into which the message is read. */
  datatype Entorno = Entorno(visto: nat, heap: Palabra, marco: nat -> byte)

  /** What one receive yields: the peer closed, a length or contents on which the original reads outside its
      own buffers, or a message. */
  datatype Recepcion = Cerrada | Indefinida | Recibido(men: Mensaje)

  /** A peek returns what is there: at least a byte, at most four. */
  function Visto(s: seq<byte>, e: Entorno): (v: nat)
    requires s != []
    ensures 1 <= v <= 4 && v <= |s|
  {
    Max(1, Min(e.visto, Min(4, |s|)))
  }

  /** The part of the array on the frame that a short read leaves as it was. */
  function Relleno(marco: nat -> byte, desde: nat, hasta: nat): (r: seq<byte>)
    requires desde <= hasta
    ensures |r| == hasta - desde
  {
    seq(hasta - desde, i requires 0 <= i < hasta - desde => marco(desde + i))
  }

  /** What the deserializer is given when `length` bytes were asked for. */
  function Leidos(s: seq<byte>, length: nat, e: Entorno): (r: seq<byte>)
    ensures |r| == length
  {
    var n := Min(length, |s|);
    s[..n] + Relleno(e.marco, n, length)
  }

  /** `socket_recv_*`: peek at the length, then read that many bytes. A read cut short by the end of the
      stream is only reported, and the message is made of whatever the array holds. `s` is all that the
      peer has sent and will send. */
  function Receive(clase: Clase, s: seq<byte>, e: Entorno): (Recepcion, seq<byte>) {
    if s == [] then (Cerrada, [])
    else
      var length := Decode(s[..Visto(s, e)] + e.heap[Visto(s, e)..]);
      if length == 0 then (Cerrada, s)    // a read of zero bytes looks like a closed peer
      else if length < 0 then (Indefinida, s)
      else
        var stream := Leidos(s, length, e);
        (if Readable(clase, stream) then Recibido(Deserialized(clase, stream)) else Indefinida, s[Min(length, |s|)..])
  }

  /** Successive receives, up to the first one that yields no message. */
  function ReceiveAll(clases: seq<Clase>, s: seq<byte>, es: seq<Entorno>): (seq<Mensaje>, seq<byte>)
    requires |es| == |clases|
  {
    if clases == [] then ([], s)
    else
      var (r, rest) := Receive(clases[0], s, es[0]);
      if !r.Recibido? then ([], rest)
      else
        var (ms, last) := ReceiveAll(clases[1..], rest, es[1..]);
        ([r.men] + ms, last)
  }

  function Stream(ms: seq<Mensaje>): seq<byte> {
    if ms == [] then [] else Serialized(ms[0]) + Stream(ms[1..])
  }

  function Clases(ms: seq<Mensaje>): (cs: seq<Clase>)
    ensures |cs| == |ms|
  {
    if ms == [] then [] else [ClaseDe(ms[0])] + Clases(ms[1..])
  }

  // ---- Whole messages ----

  lemma SeenLength(m: Mensaje, s: seq<byte>, e: Entorno)
    requires Fits(m) && |s| >= 4 && s[..4] == Serialized(m)[..4] && e.visto >= 4
    ensures Decode(s[..Visto(s, e)] + e.heap[Visto(s, e)..]) == |Serialized(m)|
  {
    hide Encode, Decode, EncodeInts;
    RoundTrip(m);
    assert Visto(s, e) == 4 && e.heap[4..] == [];
    assert s[..4] + [] == Serialized(m)[0..4];
  }

  lemma ReceiveOne(m: Mensaje, rest: seq<byte>, e: Entorno)
    requires Fits(m) && e.visto >= 4
    ensures Receive(ClaseDe(m), Serialized(m) + rest, e) == (Recibido(m), rest)
  {
    hide Encode, Decode, EncodeInts, Serialized, Deserialized, Readable, Fits, ClaseDe;
    var s := Serialized(m) + rest;
    MessageLength(m);
    assert s[..4] == Serialized(m)[..4];
    SeenLength(m, s, e);
    RoundTrip(m);
    assert Leidos(s, |Serialized(m)|, e) == Serialized(m);
    assert s[|Serialized(m)|..] == rest;
  }

  lemma MessageLength(m: Mensaje)
    ensures |Serialized(m)| >= 12
  {
    hide Encode;
  }

  /** A peek that finds fewer than four bytes takes the rest of the length from an uninitialised buffer. */
  lemma ShortPeek(clase: Clase, s: seq<byte>, e: Entorno)
    requires |s| >= 4 && e.visto < 4 && e.heap[3] == 0x80
    ensures Receive(clase, s, e) == (Indefinida, s)
  {
    var v := Visto(s, e);
    var w := s[..v] + e.heap[v..];
    assert w[3] == e.heap[3];
  }

  /** One message is received as sent, whatever the buffers hold, if and only if the peek found its whole
      length word. */
  lemma ReceiveOneIff(m: Mensaje, rest: seq<byte>, visto: nat)
    requires Fits(m)
    ensures visto >= 4 <==>
      forall heap: Palabra, marco: nat -> byte ::
        Receive(ClaseDe(m), Serialized(m) + rest, Entorno(visto, heap, marco)) == (Recibido(m), rest)
  {
    hide Receive, Serialized, ClaseDe, Fits;
    MessageLength(m);
    if visto >= 4 {
      forall heap: Palabra, marco: nat -> byte
        ensures Receive(ClaseDe(m), Serialized(m) + rest, Entorno(visto, heap, marco)) == (Recibido(m), rest)
      {
        ReceiveOne(m, rest, Entorno(visto, heap, marco));
      }
    } else {
      ShortPeek(ClaseDe(m), Serialized(m) + rest, Entorno(visto, [0, 0, 0, 0x80], i => 0));
    }
  }

  predicate Vistos(es: seq<Entorno>, vistos: seq<nat>) {
    |es| == |vistos| && forall i :: 0 <= i < |es| ==> es[i].visto == vistos[i]
  }

  /** Any sequence of messages is split back into exactly those messages when every peek finds four bytes,
      and the bytes of whatever follows them are left untouched. */
  lemma {:induction false} FramingIsExact(ms: seq<Mensaje>, tail: seq<byte>, es: seq<Entorno>)
    requires |es| == |ms| && (forall i :: 0 <= i < |es| ==> es[i].visto >= 4)
    requires forall m :: m in ms ==> Fits(m)
    ensures ReceiveAll(Clases(ms), Stream(ms) + tail, es) == (ms, tail)
    decreases |ms|
  {
    hide Receive, Serialized, Fits, ClaseDe;
    if ms == [] {
      assert Stream(ms) + tail == tail;
    } else {
      ReceiveOne(ms[0], Stream(ms[1..]) + tail, es[0]);
      assert Stream(ms) + tail == Serialized(ms[0]) + (Stream(ms[1..]) + tail);
      FramingIsExact(ms[1..], tail, es[1..]);
      assert Clases(ms)[0] == ClaseDe(ms[0]) && Clases(ms)[1..] == Clases(ms[1..]);
      assert [ms[0]] + ms[1..] == ms;
    }
  }

  /** One short peek anywhere in the sequence is enough to lose it. */
  lemma {:induction false} OneShortPeek(ms: seq<Mensaje>, tail: seq<byte>, es: seq<Entorno>)
    requires |es| == |ms| && (forall i :: 0 <= i < |es| ==> es[i].heap[3] == 0x80)
    requires exists i :: 0 <= i < |es| && es[i].visto < 4
    requires forall m :: m in ms ==> Fits(m)
    ensures ReceiveAll(Clases(ms), Stream(ms) + tail, es) != (ms, tail)
    decreases |ms|
  {
    hide Receive, Serialized, Fits, ClaseDe;
    var rest := Stream(ms[1..]) + tail;
    assert Stream(ms) + tail == Serialized(ms[0]) + rest;
    assert Clases(ms)[0] == ClaseDe(ms[0]) && Clases(ms)[1..] == Clases(ms[1..]);
    if es[0].visto < 4 {
      MessageLength(ms[0]);
      ShortPeek(ClaseDe(ms[0]), Serialized(ms[0]) + rest, es[0]);
    } else {
      ReceiveOne(ms[0], rest, es[0]);
      var i :| 0 <= i < |es| && es[i].visto < 4;
      assert es[1..][i - 1] == es[i];
      OneShortPeek(ms[1..], tail, es[1..]);
      assert ms == [ms[0]] + ms[1..];
    }
  }

  /** Under any arrival of the bytes: a sequence of messages is received exactly, whatever the uninitialised
      buffers hold, if and only if every peek finds four bytes. */
  lemma FramingIff(ms: seq<Mensaje>, tail: seq<byte>, vistos: seq<nat>)
    requires |vistos| == |ms| && forall m :: m in ms ==> Fits(m)
    ensures (forall i :: 0 <= i < |ms| ==> vistos[i] >= 4) <==>
      forall es :: Vistos(es, vistos) ==> ReceiveAll(Clases(ms), Stream(ms) + tail, es) == (ms, tail)
  {
    hide ReceiveAll, Stream, Clases, Fits;
    if forall i :: 0 <= i < |ms| ==> vistos[i] >= 4 {
      forall es | Vistos(es, vistos)
        ensures ReceiveAll(Clases(ms), Stream(ms) + tail, es) == (ms, tail)
      {
        FramingIsExact(ms, tail, es);
      }
    } else {
      var es := seq(|ms|, i requires 0 <= i < |ms| => Entorno(vistos[i], [0, 0, 0, 0x80], k => 0));
      var i :| 0 <= i < |ms| && vistos[i] < 4;
      assert es[i].visto < 4;
      OneShortPeek(ms, tail, es);
    }
  }

  // ---- Streams that end inside a message ----

  lemma {:induction false} WordsDetermine(xs: seq<int>, st: seq<byte>)
    requires 4 * |xs| <= |st| && forall i :: 0 <= i < |xs| ==> IntAt(st, 4 * i) == xs[i]
    ensures st[..4 * |xs|] == EncodeInts(xs)
    decreases |xs|
  {
    hide Encode, Decode;
    if xs != [] {
      var n := |xs| - 1;
      WordsDetermine(xs[..n], st);
      EncodeDecode(st[4 * n..4 * n + 4]);
      assert st[..4 * n + 4] == st[..4 * n] + st[4 * n..4 * n + 4];
    }
  }

  /** The header words of what a deserializer returns are the words it read; only the length is not looked at. */
  lemma WordsRead(clase: Clase, st: seq<byte>, i: nat)
    requires Readable(clase, st) && 1 <= i < |Words(Deserialized(clase, st))|
    ensures 4 * i + 4 <= |st| && Words(Deserialized(clase, st))[i] == IntAt(st, 4 * i)
  {
    hide IntAt;
  }

  lemma SameClass(clase: Clase, st: seq<byte>)
    requires Readable(clase, st)
    ensures ClaseDe(Deserialized(clase, st)) == clase
  {
  }

  lemma SamePart(st: seq<byte>, full: seq<byte>, a: nat, b: nat)
    requires 4 <= a <= b <= |full| <= |st| && st[4..|full|] == full[4..]
    ensures st[a..b] == full[a..b]
  {
    forall k | a <= k < b
      ensures st[k] == full[k]
    {
      assert st[4..|full|][k - 4] == full[4..][k - 4];
    }
  }

  lemma SameInt(st: seq<byte>, full: seq<byte>, off: nat)
    requires 4 <= off && off + 4 <= |full| <= |st| && st[4..|full|] == full[4..]
    ensures IntAt(st, off) == IntAt(full, off)
  {
    hide Decode;
    SamePart(st, full, off, off + 4);
  }

  /** A deserializer looks neither at the length word nor past the end of its message. */
  lemma SameMessage(clase: Clase, st: seq<byte>, full: seq<byte>)
    requires Readable(clase, full) && |full| <= |st| && st[4..|full|] == full[4..]
    ensures Readable(clase, st) && Deserialized(clase, st) == Deserialized(clase, full)
  {
    hide IntAt;
    forall off: nat | 4 <= off && off + 4 <= |full|
      ensures IntAt(st, off) == IntAt(full, off)
    {
      SameInt(st, full, off);
    }
    forall a: nat, b: nat | 4 <= a <= b <= |full|
      ensures st[a..b] == full[a..b]
    {
      SamePart(st, full, a, b);
    }
  }

  /** Bytes that deserialize to a message hold it behind their length word. */
  lemma Reserialized(m: Mensaje, st: seq<byte>)
    requires Fits(m) && Readable(ClaseDe(m), st) && Deserialized(ClaseDe(m), st) == m
    ensures |Serialized(m)| <= |st| && st[4..|Serialized(m)|] == Serialized(m)[4..]
  {
    hide Encode, Decode, EncodeInts, IntAt, Readable, Deserialized;
    var w, full := Words(m), Serialized(m);
    PayloadRead(m, st);
    var st2 := full[..4] + st[4..|full|];
    forall i | 0 <= i < |w|
      ensures IntAt(st2, 4 * i) == w[i]
    {
      if i == 0 {
        FirstWord(m, st2);
      } else {
        WordsRead(ClaseDe(m), st, i);
        SameInt(st, st2, 4 * i);
      }
    }
    WordsDetermine(w, st2);
    assert st2[4 * |w|..] == st[4 * |w|..|full|];
    assert st2 == st2[..4 * |w|] + st2[4 * |w|..];
  }

  lemma FirstWord(m: Mensaje, st: seq<byte>)
    requires Fits(m) && |st| == |Serialized(m)| && st[..4] == Serialized(m)[..4]
    ensures IntAt(st, 0) == Words(m)[0]
  {
    hide Encode, Decode, EncodeInts;
    Field(m, 0, 0);
    assert st[0..4] == Serialized(m)[0..4];
  }

  lemma PayloadRead(m: Mensaje, st: seq<byte>)
    requires Fits(m) && Readable(ClaseDe(m), st) && Deserialized(ClaseDe(m), st) == m
    ensures |Serialized(m)| <= |st| && st[4 * |Words(m)|..|Serialized(m)|] == Payload(m)
  {
    hide Encode, EncodeInts, IntAt;
  }

  /** Whatever arrived, in whatever pieces, and whatever the buffers held: the receiver hands on a given message if
      and only if the length it saw is long enough and the bytes it read behind the length word are those of
      that message. */
  lemma ReceivedIff(m: Mensaje, s: seq<byte>, e: Entorno)
    requires Fits(m) && s != []
    ensures var length, n := Decode(s[..Visto(s, e)] + e.heap[Visto(s, e)..]), |Serialized(m)|;
            Receive(ClaseDe(m), s, e).0 == Recibido(m) <==>
            length >= n && Leidos(s, length, e)[4..n] == Serialized(m)[4..]
  {
    hide Encode, Decode, EncodeInts, Serialized, Deserialized, Readable, Fits, ClaseDe, Relleno, Leidos;
    var length, full := Decode(s[..Visto(s, e)] + e.heap[Visto(s, e)..]), Serialized(m);
    MessageLength(m);
    if length > 0 {
      var st := Leidos(s, length, e);
      RoundTrip(m);
      if length >= |full| && st[4..|full|] == full[4..] {
        SameMessage(ClaseDe(m), st, full);
      }
      if Readable(ClaseDe(m), st) && Deserialized(ClaseDe(m), st) == m {
        Reserialized(m, st);
      }
    }
  }

  /** A stream that ends `n` bytes into a message, anywhere: what the receiver hands on is that message if and only if
      the length it made of the bytes peeked and of the peek buffer is long enough and the array on its frame
      happened to hold the missing bytes. Behind a length word that arrived whole the length is right. */
  lemma CutIff(m: Mensaje, n: nat, e: Entorno)
    requires Fits(m) && 1 <= n < |Serialized(m)|
    ensures var s, full := Serialized(m)[..n], Serialized(m);
            var length := Decode(s[..Visto(s, e)] + e.heap[Visto(s, e)..]);
            && (Receive(ClaseDe(m), s, e) == (Recibido(m), []) <==>
                  length >= |full| && Relleno(e.marco, Max(4, n), |full|) == full[Max(4, n)..])
            && (n >= 4 && e.visto >= 4 ==> length == |full| && Receive(ClaseDe(m), s, e).1 == [])
  {
    hide Encode, Decode, EncodeInts, Serialized, Deserialized, Readable, Fits, ClaseDe, Relleno, Leidos;
    MessageLength(m);
    var full := Serialized(m);
    var s := full[..n];
    var length := Decode(s[..Visto(s, e)] + e.heap[Visto(s, e)..]);
    ReceivedIff(m, s, e);
    if length >= |full| {
      CutRead(full, n, length, e);
      assert s[|s|..] == [];
    }
    if n >= 4 && e.visto >= 4 {
      assert s[..4] == full[..4];
      SeenLength(m, s, e);
    }
  }

  /** What was read of a message that was cut, behind its length word. */
  lemma CutRead(full: seq<byte>, n: nat, length: nat, e: Entorno)
    requires 1 <= n < |full| <= length && 4 <= |full|
    ensures var k := Max(4, n);
            k <= |full| && (Leidos(full[..n], length, e)[4..|full|] == full[4..] <==>
                              Relleno(e.marco, k, |full|) == full[k..])
  {
    var k, st := Max(4, n), Leidos(full[..n], length, e);
    var fill := Relleno(e.marco, k, |full|);
    assert st[4..|full|] == full[4..k] + fill by {
      LeidosParts(full[..n], length, e);
    }
    assert full[4..] == full[4..k] + full[k..];
    assert (full[4..k] + fill)[k - 4..] == fill && (full[4..k] + full[k..])[k - 4..] == full[k..];
  }

  lemma LeidosParts(s: seq<byte>, length: nat, e: Entorno)
    requires |s| <= length
    ensures Leidos(s, length, e) == s + Relleno(e.marco, |s|, length)
  {
    assert s[..|s|] == s;
  }

  /** Whatever message comes of it, the header fields that arrived whole are the ones sent. */
  lemma CutKeepsFields(m: Mensaje, n: nat, e: Entorno, i: nat)
    requires Fits(m) && 4 <= n < |Serialized(m)| && e.visto >= 4
    requires 1 <= i < |Words(m)| && 4 * i + 4 <= n
    ensures var r := Receive(ClaseDe(m), Serialized(m)[..n], e).0;
            r.Recibido? ==> ClaseDe(r.men) == ClaseDe(m) && i < |Words(r.men)| && Words(r.men)[i] == Words(m)[i]
  {
    hide Encode, Decode, EncodeInts, Deserialized, Readable, Fits, Relleno, Serialized, Words;
    var full := Serialized(m);
    var s := full[..n];
    assert s[..4] == full[..4];
    SeenLength(m, s, e);
    var st := Leidos(s, |full|, e);
    if Readable(ClaseDe(m), st) {
      var r := Deserialized(ClaseDe(m), st);
      SameClass(ClaseDe(m), st);
      SameWordCount(m, r);
      WordsRead(ClaseDe(m), st, i);
      Field(m, i, 4 * i);
      assert st[4 * i..4 * i + 4] == full[4 * i..4 * i + 4];
    }
  }

  lemma SameWordCount(m: Mensaje, r: Mensaje)
    requires ClaseDe(m) == ClaseDe(r)
    ensures |Words(m)| == |Words(r)|
  {
  }

  /** A cut that goes unnoticed: of a one-character text only the header arrives, and the receiver hands on
      another character. */
  lemma CutGivesAnotherMessage(tipo: int, sent: byte, held: byte)
    requires IsInt32(tipo)
    ensures var m := Comun(tipo, [sent]);
            Receive(ClaseComun, Serialized(m)[..12], Entorno(4, [0, 0, 0, 0], i => held)) == (Recibido(Comun(tipo, [held])), [])
  {
    hide Encode, Decode, EncodeInts, IntAt;
    var m, e := Comun(tipo, [sent]), Entorno(4, [0, 0, 0, 0], i => held);
    var full := Serialized(m);
    var s := full[..12];
    assert |full| == 13 && s[..4] == full[..4];
    SeenLength(m, s, e);
    var st := Leidos(s, 13, e);
    assert Words(m) == [13, tipo, 1] && st[..12] == full[..12] && st[..8] == full[..8];
    WordKept(m, st, 1);
    WordKept(m, st, 2);
    assert IntAt(st, 4) == tipo && IntAt(st, 8) == 1 && st[12..13] == [held];
    assert Readable(ClaseComun, st) && Deserialized(ClaseComun, st) == Comun(tipo, [held]);
    assert Receive(ClaseComun, s, e).1 == s[12..] == [];
  }

  lemma WordKept(m: Mensaje, st: seq<byte>, i: nat)
    requires Fits(m) && i < |Words(m)| && 4 * i + 4 <= |Serialized(m)| && 4 * i + 4 <= |st|
    requires st[..4 * i + 4] == Serialized(m)[..4 * i + 4]
    ensures IntAt(st, 4 * i) == Words(m)[i]
  {
    hide Encode, Decode, EncodeInts, Serialized, Words, Fits;
    Field(m, i, 4 * i);
    assert st[4 * i..4 * i + 4] == st[..4 * i + 4][4 * i..];
    assert Serialized(m)[4 * i..4 * i + 4] == Serialized(m)[..4 * i + 4][4 * i..];
  }

  /** A connection that dies part way through a message delivers every message before it; of the next one
      the receiver sees a closed peer if not a byte of it arrived, and otherwise a message that is the one sent
      if and only if the length it saw is long enough and the array on the frame held the missing bytes. */
  lemma CutStream(ms: seq<Mensaje>, next: Mensaje, n: nat, es: seq<Entorno>, e: Entorno)
    requires |es| == |ms| && (forall i :: 0 <= i < |es| ==> es[i].visto >= 4)
    requires forall m :: m in ms ==> Fits(m)
    requires Fits(next) && n < |Serialized(next)|
    ensures ReceiveAll(Clases(ms), Stream(ms) + Serialized(next)[..n], es) == (ms, Serialized(next)[..n])
    ensures n == 0 ==> Receive(ClaseDe(next), Serialized(next)[..n], e) == (Cerrada, [])
    ensures n > 0 ==>
      var s, full := Serialized(next)[..n], Serialized(next);
      (Receive(ClaseDe(next), s, e) == (Recibido(next), []) <==>
         && Decode(s[..Visto(s, e)] + e.heap[Visto(s, e)..]) >= |full|
         && Max(4, n) <= |full| && Relleno(e.marco, Max(4, n), |full|) == full[Max(4, n)..])
    ensures n >= 4 && e.visto >= 4 ==>
      (Receive(ClaseDe(next), Serialized(next)[..n], e) == (Recibido(next), [])
       <==> Relleno(e.marco, n, |Serialized(next)|) == Serialized(next)[n..])
  {
    hide ReceiveAll, Receive, Serialized, Fits, Stream, Clases, Relleno, Leidos, Readable, Deserialized, Decode;
    MessageLength(next);
    FramingIsExact(ms, Serialized(next)[..n], es);
    if n == 0 {
      NothingArrives(ClaseDe(next), Serialized(next)[..n], e);
    } else {
      CutIff(next, n, e);
    }
  }

  lemma NothingArrives(clase: Clase, s: seq<byte>, e: Entorno)
    requires |s| == 0
    ensures Receive(clase, s, e) == (Cerrada, [])
  {
  }

  // ---- The connection as the library runs it ----

  /** The receiving end: the bytes the peer has sent and will send that were not yet read. */
  class Conexion {
    var llegado: seq<byte>

    constructor ()
      ensures llegado == []
    {
      llegado := [];
    }

    /** `socket_send_*` at the other end; `heap` lies behind the buffer of a request. */
    method Enviar(m: Mensaje, heap: seq<byte>)
      requires m.CpuUmv? ==> 0 <= m.tam <= |m.buffer| + |heap|
      modifies this
      ensures llegado == old(llegado) + Serialized(if m.CpuUmv? then Overread(m, heap) else m)
    {
      var stream: array<byte>;
      match m {
        case Comun(_, _) => stream := SerializarComun(m);
        case QuantumPcb(_, _, _) => stream := SerializarQuantumPcb(m);
        case CpuUmv(_, _, _, _, _) => stream := SerializarCpuUmv(m, heap);
        case PedSeg(_, _, _) => stream := SerializarSeg(m);
      }
      llegado := llegado + stream[..];
    }

    /** `socket_recv_*`. */
    method Recibir(clase: Clase, e: Entorno) returns (r: Recepcion)
      modifies this
      ensures (r, llegado) == Receive(clase, old(llegado), e)
    {
      hide Readable, Deserialized, Decode;
      if llegado == [] {
        return Cerrada;
      }
      var v := Visto(llegado, e);
      var length := Decode(llegado[..v] + e.heap[v..]);
      if length == 0 {
        return Cerrada;
      }
      if length < 0 {
        return Indefinida;
      }
      var n: nat := Min(length, |llegado|);
      var stream := new byte[length](i => e.marco(i));
      Memcpy(stream, 0, llegado[..n]);
      assert stream[..] == Leidos(llegado, length, e);
      llegado := llegado[n..];
      if !Readable(clase, stream[..]) {
        return Indefinida;
      }
      var m := Deserializar(clase, stream);
      r := Recibido(m);
    }
  }
}
