/** The four message kinds of the socket library and their serializers. */
module Wire {
  import opened Bytes

  /** Program control block, one int32_t per field. */
  datatype Pcb = Pcb(
    cantVar: int,          // cant_var_cont_actual
    dirCont: int,          // dir_cont_actual
    dirIndiceCodigo: int,
    dirIndiceEtiquetas: int,
    dirSegCodigo: int,
    dirSegStack: int,
    id: int,
    pc: int,               // program_counter
    tamIndiceEtiquetas: int,
    cantInstrucciones: int)

  /** An empty buffer stands both for NULL and for a zero-byte allocation. */
  datatype Mensaje =
    | Comun(tipo: int, dato: seq<byte>)
    | QuantumPcb(tipo: int, quantum: int, pcb: Pcb)
    | CpuUmv(tipo: int, base: int, offset: int, tam: int, buffer: seq<byte>)
    | PedSeg(tipo: int, idProg: int, tamSeg: int)

  /** Which `socket_recv_*` function the receiver calls. */
  datatype Clase = ClaseComun | ClaseQuantum | ClaseCpuUmv | ClaseSeg

  const PCB_Y_QUANTUM := 68

  predicate PcbFits(p: Pcb) {
    && IsInt32(p.cantVar) && IsInt32(p.dirCont) && IsInt32(p.dirIndiceCodigo) && IsInt32(p.dirIndiceEtiquetas)
    && IsInt32(p.dirSegCodigo) && IsInt32(p.dirSegStack) && IsInt32(p.id) && IsInt32(p.pc)
    && IsInt32(p.tamIndiceEtiquetas) && IsInt32(p.cantInstrucciones)
  }

  /** Every field fits an int32_t, the declared size is that of the buffer, and so does the total length. */
  predicate Fits(m: Mensaje) {
    match m
    case Comun(tipo, dato) => IsInt32(tipo) && IsInt32(12 + |dato|)
    case QuantumPcb(tipo, quantum, pcb) => IsInt32(tipo) && IsInt32(quantum) && PcbFits(pcb)
    case CpuUmv(tipo, base, offset, tam, buffer) =>
      IsInt32(tipo) && IsInt32(base) && IsInt32(offset) && tam == |buffer| && IsInt32(20 + tam)
    case PedSeg(tipo, idProg, tamSeg) => IsInt32(tipo) && IsInt32(idProg) && IsInt32(tamSeg)
  }

  function ClaseDe(m: Mensaje): Clase {
    match m
    case Comun(_, _) => ClaseComun
    case QuantumPcb(_, _, _) => ClaseQuantum
    case CpuUmv(_, _, _, _, _) => ClaseCpuUmv
    case PedSeg(_, _, _) => ClaseSeg
  }

  /** The header words of a message and the bytes behind them. */
  function Words(m: Mensaje): seq<int> {
    match m
    case Comun(tipo, dato) => [12 + |dato|, tipo, |dato|]
    case QuantumPcb(tipo, quantum, p) =>
      [52, tipo, quantum, p.cantVar, p.dirCont, p.dirIndiceCodigo, p.dirIndiceEtiquetas, p.dirSegCodigo,
       p.dirSegStack, p.id, p.pc, p.tamIndiceEtiquetas, p.cantInstrucciones]
    case CpuUmv(tipo, base, offset, tam, _) => [20 + tam, tipo, base, offset, tam]
    case PedSeg(tipo, idProg, tamSeg) => [16, tipo, idProg, tamSeg]
  }

  function Payload(m: Mensaje): seq<byte> {
    match m
    case Comun(_, dato) => dato
    case CpuUmv(_, _, _, _, buffer) => buffer
    case _ => []
  }

  function EncodeInts(xs: seq<int>): (s: seq<byte>)
    ensures |s| == 4 * |xs|
  {
    if xs == [] then [] else EncodeInts(xs[..|xs| - 1]) + Encode(xs[|xs| - 1])
  }

  /** The bytes of a message on the wire. */
  function Serialized(m: Mensaje): seq<byte> {
    EncodeInts(Words(m)) + Payload(m)
  }

  /** The int32_t at byte offset `off`. */
  function IntAt(s: seq<byte>, off: nat): int
    requires off + 4 <= |s|
  {
    Decode(s[off..off + 4])
  }

  /** Whether the deserializer of this kind stays inside the received bytes. */
  predicate Readable(clase: Clase, s: seq<byte>) {
    match clase
    case ClaseComun => |s| >= 12 && 0 <= IntAt(s, 8) <= |s| - 12
    case ClaseQuantum => |s| >= 52
    case ClaseCpuUmv => |s| >= 20 && 0 <= IntAt(s, 16) <= |s| - 20
    case ClaseSeg => |s| >= 16
  }

  function Deserialized(clase: Clase, s: seq<byte>): Mensaje
    requires Readable(clase, s)
  {
    match clase
    case ClaseComun => Comun(IntAt(s, 4), s[12..12 + IntAt(s, 8)])
    case ClaseQuantum =>
      QuantumPcb(IntAt(s, 4), IntAt(s, 8),
                 Pcb(IntAt(s, 12), IntAt(s, 16), IntAt(s, 20), IntAt(s, 24), IntAt(s, 28),
                     IntAt(s, 32), IntAt(s, 36), IntAt(s, 40), IntAt(s, 44), IntAt(s, 48)))
    case ClaseCpuUmv => CpuUmv(IntAt(s, 4), IntAt(s, 8), IntAt(s, 12), IntAt(s, 16), s[20..20 + IntAt(s, 16)])
    case ClaseSeg => PedSeg(IntAt(s, 4), IntAt(s, 8), IntAt(s, 12))
  }

  lemma {:induction false} WordAt(xs: seq<int>, rest: seq<byte>, i: nat)
    requires i < |xs| && IsInt32(xs[i])
    ensures IntAt(EncodeInts(xs) + rest, 4 * i) == xs[i]
    decreases |xs|
  {
    var n := |xs| - 1;
    if i == n {
      assert (EncodeInts(xs) + rest)[4 * n..4 * n + 4] == Encode(xs[n]);
      DecodeEncode(xs[n]);
    } else {
      WordAt(xs[..n], Encode(xs[n]) + rest, i);
      assert EncodeInts(xs) + rest == EncodeInts(xs[..n]) + (Encode(xs[n]) + rest);
    }
  }

  /** Every header word of a message is read back at its offset. */
  lemma Field(m: Mensaje, i: nat, off: nat)
    requires Fits(m) && i < |Words(m)| && off == 4 * i
    ensures off + 4 <= |Serialized(m)| && IntAt(Serialized(m), off) == Words(m)[i]
  {
    hide Encode, Decode, EncodeInts, IntAt;
    WordAt(Words(m), Payload(m), i);
  }

  lemma QuantumFields(m: Mensaje)
    requires Fits(m) && m.QuantumPcb?
    ensures |Serialized(m)| == 52 && Deserialized(ClaseQuantum, Serialized(m)) == m
  {
    hide Encode, Decode, EncodeInts, IntAt, Fits;
    Field(m, 1, 4);
    Field(m, 2, 8);
    Field(m, 3, 12);
    Field(m, 4, 16);
    Field(m, 5, 20);
    Field(m, 6, 24);
    Field(m, 7, 28);
    Field(m, 8, 32);
    Field(m, 9, 36);
    Field(m, 10, 40);
    Field(m, 11, 44);
    Field(m, 12, 48);
  }

  /** Deserializing what was serialized gives the message back, for the four kinds. */
  lemma RoundTrip(m: Mensaje)
    requires Fits(m)
    ensures Readable(ClaseDe(m), Serialized(m))
    ensures Deserialized(ClaseDe(m), Serialized(m)) == m
    ensures IntAt(Serialized(m), 0) == |Serialized(m)|
  {
    hide Encode, Decode, EncodeInts, IntAt;
    var s := Serialized(m);
    Field(m, 0, 0);
    Field(m, 1, 4);
    Field(m, 2, 8);
    match m
    case Comun(_, dato) => assert s[12..12 + |dato|] == dato;
    case QuantumPcb(_, _, _) => QuantumFields(m);
    case CpuUmv(_, _, _, tam, buffer) =>
      Field(m, 3, 12);
      Field(m, 4, 16);
      assert s[20..20 + tam] == buffer;
    case PedSeg(_, _, _) => Field(m, 3, 12);
  }

  /** Where each field lies on the wire, after the length: what a peer that reads the bytes can rely on. */
  lemma Layout(m: Mensaje)
    requires Fits(m)
    ensures var s := Serialized(m);
            && |s| >= 12 && IntAt(s, 0) == |s| && IntAt(s, 4) == m.tipo
            && match m
               case Comun(_, dato) => |s| == 12 + |dato| && IntAt(s, 8) == |dato| && s[12..] == dato
               case QuantumPcb(_, quantum, p) =>
                 && |s| == 52 && IntAt(s, 8) == quantum && IntAt(s, 12) == p.cantVar && IntAt(s, 16) == p.dirCont
                 && IntAt(s, 20) == p.dirIndiceCodigo && IntAt(s, 24) == p.dirIndiceEtiquetas && IntAt(s, 28) == p.dirSegCodigo
                 && IntAt(s, 32) == p.dirSegStack && IntAt(s, 36) == p.id && IntAt(s, 40) == p.pc
                 && IntAt(s, 44) == p.tamIndiceEtiquetas && IntAt(s, 48) == p.cantInstrucciones
               case CpuUmv(_, base, offset, tam, buffer) =>
                 && |s| == 20 + |buffer| && IntAt(s, 8) == base && IntAt(s, 12) == offset && IntAt(s, 16) == tam
                 && s[20..] == buffer
               case PedSeg(_, idProg, tamSeg) => |s| == 16 && IntAt(s, 8) == idProg && IntAt(s, 12) == tamSeg
  {
    hide Encode, Decode, EncodeInts, IntAt;
    Field(m, 0, 0);
    Field(m, 1, 4);
    Field(m, 2, 8);
    match m
    case Comun(_, _) =>
    case QuantumPcb(_, _, _) =>
      Field(m, 3, 12);
      Field(m, 4, 16);
      Field(m, 5, 20);
      Field(m, 6, 24);
      Field(m, 7, 28);
      Field(m, 8, 32);
      Field(m, 9, 36);
      Field(m, 10, 40);
      Field(m, 11, 44);
      Field(m, 12, 48);
    case CpuUmv(_, _, _, _, _) =>
      Field(m, 3, 12);
      Field(m, 4, 16);
    case PedSeg(_, _, _) => Field(m, 3, 12);
  }

  // ---- Requests without a buffer ----

  /** `crear_men_cpu_umv` keeps the declared size next to a NULL buffer, so the serializer copies
      `tam` bytes from whatever the heap holds behind the buffer. */
  function Overread(m: Mensaje, heap: seq<byte>): (r: Mensaje)
    requires m.CpuUmv? && 0 <= m.tam <= |m.buffer| + |heap|
    ensures r.CpuUmv? && |r.buffer| == m.tam
  {
    m.(buffer := (m.buffer + heap)[..m.tam])
  }

  /** Whatever the heap holds, the receiver of a request sees its four header fields unchanged,
      and its buffer too when the declared size is the real one. */
  lemma RequestHeaderSurvives(m: Mensaje, heap: seq<byte>)
    requires m.CpuUmv? && 0 <= m.tam <= |m.buffer| + |heap|
    requires IsInt32(m.tipo) && IsInt32(m.base) && IsInt32(m.offset) && IsInt32(20 + m.tam)
    ensures var s := Serialized(Overread(m, heap));
            && Readable(ClaseCpuUmv, s)
            && var r := Deserialized(ClaseCpuUmv, s);
            && r.tipo == m.tipo && r.base == m.base && r.offset == m.offset && r.tam == m.tam
            && (m.tam == |m.buffer| ==> r == m)
  {
    RoundTrip(Overread(m, heap));
  }

  // ---- The serializers and deserializers as the library runs them ----

  /** One `memcpy` of an int32_t at the running offset. */
  method PutInt(stream: array<byte>, offset: nat, x: int, ghost done: seq<int>) returns (next: nat, ghost words: seq<int>)
    requires offset == 4 * |done| && offset + 4 <= stream.Length
    requires stream[..offset] == EncodeInts(done)
    modifies stream
    ensures words == done + [x] && next == 4 * |words|
    ensures stream[..next] == EncodeInts(words)
  {
    ghost var before := stream[..];
    Memcpy(stream, offset, Encode(x));
    next := offset + 4;
    words := done + [x];
    assert words[..|done|] == done;
    assert stream[..next] == before[..offset] + Encode(x);
  }

  lemma NoWords()
    ensures EncodeInts([]) == []
  {
  }

  method SerializarComun(m: Mensaje) returns (stream: array<byte>)
    requires m.Comun?
    ensures fresh(stream) && stream[..] == Serialized(m)
  {
    hide Encode, EncodeInts;
    NoWords();
    var length := 4 * 3 + |m.dato|;
    stream := new byte[length];
    var offset, ws := PutInt(stream, 0, length, []);
    offset, ws := PutInt(stream, offset, m.tipo, ws);
    offset, ws := PutInt(stream, offset, |m.dato|, ws);
    assert ws == Words(m);
    SpliceTail(stream[..], offset, m.dato);
    assert stream[..][..offset] == stream[..offset];
    Memcpy(stream, offset, m.dato);
  }

  /** The first five fields of the block, in wire order. */
  method PutPcbLow(stream: array<byte>, offset: nat, p: Pcb, ghost done: seq<int>)
    returns (next: nat, ghost words: seq<int>)
    requires offset == 4 * |done| && offset + 20 <= stream.Length && stream[..offset] == EncodeInts(done)
    modifies stream
    ensures words == done + [p.cantVar, p.dirCont, p.dirIndiceCodigo, p.dirIndiceEtiquetas, p.dirSegCodigo]
    ensures next == 4 * |words| && stream[..next] == EncodeInts(words)
  {
    next, words := PutInt(stream, offset, p.cantVar, done);
    next, words := PutInt(stream, next, p.dirCont, words);
    next, words := PutInt(stream, next, p.dirIndiceCodigo, words);
    next, words := PutInt(stream, next, p.dirIndiceEtiquetas, words);
    next, words := PutInt(stream, next, p.dirSegCodigo, words);
  }

  /** The last five fields of the block, in wire order. */
  method PutPcbHigh(stream: array<byte>, offset: nat, p: Pcb, ghost done: seq<int>)
    returns (next: nat, ghost words: seq<int>)
    requires offset == 4 * |done| && offset + 20 <= stream.Length && stream[..offset] == EncodeInts(done)
    modifies stream
    ensures words == done + [p.dirSegStack, p.id, p.pc, p.tamIndiceEtiquetas, p.cantInstrucciones]
    ensures next == 4 * |words| && stream[..next] == EncodeInts(words)
  {
    next, words := PutInt(stream, offset, p.dirSegStack, done);
    next, words := PutInt(stream, next, p.id, words);
    next, words := PutInt(stream, next, p.pc, words);
    next, words := PutInt(stream, next, p.tamIndiceEtiquetas, words);
    next, words := PutInt(stream, next, p.cantInstrucciones, words);
  }

  method SerializarQuantumPcb(m: Mensaje) returns (stream: array<byte>)
    requires m.QuantumPcb?
    ensures fresh(stream) && stream[..] == Serialized(m)
  {
    hide Encode, EncodeInts;
    NoWords();
    stream := new byte[4 * 13];
    var offset, ws := PutInt(stream, 0, 4 * 13, []);
    offset, ws := PutInt(stream, offset, m.tipo, ws);
    offset, ws := PutInt(stream, offset, m.quantum, ws);
    offset, ws := PutPcbLow(stream, offset, m.pcb, ws);
    offset, ws := PutPcbHigh(stream, offset, m.pcb, ws);
    assert ws == Words(m);
    assert stream[..] == stream[..52];
  }

  /** `heap` is what lies behind the buffer, for a request that declares more than it has. */
  method SerializarCpuUmv(m: Mensaje, heap: seq<byte>) returns (stream: array<byte>)
    requires m.CpuUmv? && 0 <= m.tam <= |m.buffer| + |heap|
    ensures fresh(stream) && stream[..] == Serialized(Overread(m, heap))
  {
    hide Encode, EncodeInts;
    NoWords();
    var length := 4 * 5 + m.tam;
    var buffer := (m.buffer + heap)[..m.tam];
    stream := new byte[length];
    var offset, ws := PutInt(stream, 0, length, []);
    offset, ws := PutInt(stream, offset, m.tipo, ws);
    offset, ws := PutInt(stream, offset, m.base, ws);
    offset, ws := PutInt(stream, offset, m.offset, ws);
    offset, ws := PutInt(stream, offset, m.tam, ws);
    assert ws == Words(Overread(m, heap));
    SpliceTail(stream[..], offset, buffer);
    assert stream[..][..offset] == stream[..offset];
    Memcpy(stream, offset, buffer);
  }

  method SerializarSeg(m: Mensaje) returns (stream: array<byte>)
    requires m.PedSeg?
    ensures fresh(stream) && stream[..] == Serialized(m)
  {
    hide Encode, EncodeInts;
    NoWords();
    stream := new byte[4 * 4];
    var offset, ws := PutInt(stream, 0, 4 * 4, []);
    offset, ws := PutInt(stream, offset, m.tipo, ws);
    offset, ws := PutInt(stream, offset, m.idProg, ws);
    offset, ws := PutInt(stream, offset, m.tamSeg, ws);
    assert ws == Words(m);
    assert stream[..] == stream[..16];
  }

  method GetInt(stream: array<byte>, offset: nat) returns (x: int, next: nat)
    requires offset + 4 <= stream.Length
    ensures x == IntAt(stream[..], offset) && next == offset + 4
  {
    x := Decode(stream[offset..offset + 4]);
    next := offset + 4;
    assert stream[..][offset..offset + 4] == stream[offset..offset + 4];
  }

  /** `men_deserealizer_comun`, `_quantum_pcb`, `_cpu_umv` and `_seg`. */
  method Deserializar(clase: Clase, stream: array<byte>) returns (m: Mensaje)
    requires Readable(clase, stream[..])
    ensures m == Deserialized(clase, stream[..])
  {
    var tipo, a, b, c, offset;
    tipo, offset := GetInt(stream, 4);
    match clase {
      case ClaseComun =>
        a, offset := GetInt(stream, offset);
        m := Comun(tipo, if a == 0 then [] else stream[offset..offset + a]);
      case ClaseQuantum =>
        a, offset := GetInt(stream, offset);
        var p := Pcb(0, 0, 0, 0, 0, 0, 0, 0, 0, 0);
        b, offset := GetInt(stream, offset);
        p := p.(cantVar := b);
        b, offset := GetInt(stream, offset);
        p := p.(dirCont := b);
        b, offset := GetInt(stream, offset);
        p := p.(dirIndiceCodigo := b);
        b, offset := GetInt(stream, offset);
        p := p.(dirIndiceEtiquetas := b);
        b, offset := GetInt(stream, offset);
        p := p.(dirSegCodigo := b);
        b, offset := GetInt(stream, offset);
        p := p.(dirSegStack := b);
        b, offset := GetInt(stream, offset);
        p := p.(id := b);
        b, offset := GetInt(stream, offset);
        p := p.(pc := b);
        b, offset := GetInt(stream, offset);
        p := p.(tamIndiceEtiquetas := b);
        b, offset := GetInt(stream, offset);
        p := p.(cantInstrucciones := b);
        m := QuantumPcb(tipo, a, p);
      case ClaseCpuUmv =>
        a, offset := GetInt(stream, offset);
        b, offset := GetInt(stream, offset);
        c, offset := GetInt(stream, offset);
        m := CpuUmv(tipo, a, b, c, if c == 0 then [] else stream[offset..offset + c]);
      case ClaseSeg =>
        a, offset := GetInt(stream, offset);
        b, offset := GetInt(stream, offset);
        m := PedSeg(tipo, a, b);
    }
  }
}
