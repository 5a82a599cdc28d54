/** The CPU over the raw bytes of a stack segment: what each primitive does to the control block, the bytes,
    the variable dictionary and the two end flags. */
module CallStack {
  import opened Bytes
  import opened Wire

  /** `pila` is the stack segment of the running process, `dic` is dic_Variables, `fin` is fueFinEjecucion,
      `avisos` the SEGMEN_FAULT reports sent to the kernel since the dispatch. */
  datatype Maquina =
    Maquina(pcb: Pcb, pila: seq<byte>, dic: map<byte, int>, fin: bool, segFault: bool, avisos: nat)

  /** Primitives as the parser calls them; labels arrive already looked up, -1 for a missing one.
      `basura` is what ends up in the four value bytes of a new variable. */
  datatype Op =
    | Avanzar
    | Definir(id: byte, basura: Palabra)
    | Asignar(dir: int, valor: int)
    | IrALabel(destino: int)
    | LlamarSinRetorno(destino: int)
    | LlamarConRetorno(destino: int, donde: int)
    | Finalizar
    | Retornar(valor: int)

  /** es_numero_pasar_char */
  function Caracter(b: byte): byte {
    if b <= 9 then b + 48 else b
  }

  /** Whether a program can write one name in these two ways: a digit as a number or as a character. */
  predicate MismoNombre(x: byte, y: byte) {
    x == y || (x <= 9 && y == x + 48) || (y <= 9 && x == y + 48)
  }

  /** Different names stay different, and every name above 9 is itself. */
  lemma NamesApart(x: byte, y: byte)
    ensures Caracter(x) == Caracter(y) <==> MismoNombre(x, y)
    ensures x > 9 ==> Caracter(x) == x
    ensures MismoNombre(Caracter(x), x)
  {
  }

  /** C division truncates toward zero. */
  function DivC(a: int, b: int): int
    requires b > 0
  {
    if a >= 0 then a / b else -((-a) / b)
  }

  /** When the memory server accepts an access to the stack segment. */
  predicate InRange(m: Maquina, offset: int, tam: nat) {
    m.pcb.dirSegStack >= 0 && 0 <= offset && offset + tam <= |m.pila|
  }

  /** finalizarContexto(SEGMEN_FAULT) */
  function Falla(m: Maquina): Maquina {
    m.(fin := true, segFault := true, avisos := m.avisos + 1)
  }

  /** An ALM_BYTES request and the reaction to its answer. */
  function Escribir(m: Maquina, offset: int, b: seq<byte>): Maquina {
    if InRange(m, offset, |b|) then m.(pila := Splice(m.pila, offset, b)) else Falla(m)
  }

  /** Offset behind the last variable of the current context. */
  function Tope(m: Maquina): int {
    m.pcb.dirCont - m.pcb.dirSegStack + m.pcb.cantVar * 5
  }

  /** The dictionary that a scan of `n` name bytes from offset `o` builds; later names win. */
  function Escaneo(pila: seq<byte>, o: nat, dir: int, n: nat): map<byte, int>
    requires n > 0 ==> o + 5 * (n - 1) < |pila|
  {
    if n == 0 then map[]
    else Escaneo(pila, o, dir, n - 1)[Caracter(pila[o + 5 * (n - 1)]) := dir + 5 * (n - 1)]
  }

  /** Whether every name byte of the context can be read. */
  predicate Legible(m: Maquina) {
    m.pcb.cantVar > 0 ==>
      m.pcb.dirCont >= m.pcb.dirSegStack && InRange(m, m.pcb.dirCont - m.pcb.dirSegStack + 5 * (m.pcb.cantVar - 1), 1)
  }

  /** The variables of the current context, by a scan of the bytes. */
  function Indice(m: Maquina): map<byte, int>
    requires Legible(m)
  {
    if m.pcb.cantVar <= 0 then map[]
    else Escaneo(m.pila, m.pcb.dirCont - m.pcb.dirSegStack, m.pcb.dirCont, m.pcb.cantVar)
  }

  /** regenerar_dicc_var; the process dies on an unreadable name, because the answer carries no data. */
  function Regenerada(m: Maquina): Option<Maquina> {
    if Legible(m) then Some(m.(dic := Indice(m))) else None
  }

  function ConPcb(m: Maquina, cantVar: int, pc: int, dirCont: int): Maquina {
    m.(pcb := m.pcb.(cantVar := cantVar, pc := pc, dirCont := dirCont))
  }

  /** preservarContexto */
  function Preservado(m: Maquina): Maquina {
    var m1 := Escribir(m, Tope(m), Encode(m.pcb.dirCont));
    if !InRange(m, Tope(m), 4) then m1 else Escribir(m1, Tope(m) + 4, Encode(m.pcb.pc))
  }

  function Definida(m: Maquina, id: byte, basura: Palabra): Maquina {
    if !InRange(m, Tope(m), 5) then Falla(m)
    else
      m.(pila := Splice(m.pila, Tope(m), [Caracter(id)] + basura),
         dic := m.dic[Caracter(id) := m.pcb.dirSegStack + Tope(m)],
         pcb := m.pcb.(cantVar := m.pcb.cantVar + 1))
  }

  function Asignada(m: Maquina, dir: int, valor: int): Maquina {
    if m.segFault then m else Escribir(m, dir - m.pcb.dirSegStack + 1, Encode(valor))
  }

  function LlamadaSin(m: Maquina, destino: int): Maquina {
    ConPcb(Preservado(m), 0, destino, m.pcb.dirCont + 5 * m.pcb.cantVar + 8).(dic := map[])
  }

  function LlamadaCon(m: Maquina, destino: int, donde: int): Maquina {
    var m1 := Preservado(m);
    var offset := Tope(m) + 8;
    if InRange(m1, offset, 4) then
      ConPcb(Escribir(m1, offset, Encode(donde)), 0, destino, m.pcb.dirSegStack + offset + 4).(dic := map[])
    else Falla(m1)
  }

  /** The int32_t at a stack offset. */
  function Leido(m: Maquina, offset: int): int
    requires InRange(m, offset, 4)
  {
    IntAt(m.pila, offset)
  }

  /** Whether every variable of the outermost context can be read, name and value. */
  predicate Imprimible(m: Maquina) {
    m.pcb.cantVar > 0 ==> InRange(m, 5 * (m.pcb.cantVar - 1), 5)
  }

  /** The names and values finalizarContexto(OK) sends to be printed. */
  function Impresas(m: Maquina): seq<(byte, int)>
    requires Imprimible(m)
  {
    if m.pcb.cantVar <= 0 then []
    else seq(m.pcb.cantVar, i requires 0 <= i < m.pcb.cantVar => (m.pila[5 * i], IntAt(m.pila, 5 * i + 1)))
  }

  /** finalizar; the outermost context ends the process, which dies if it cannot read its variables. */
  function Finalizada(m: Maquina): Option<Maquina> {
    if m.pcb.dirCont == m.pcb.dirSegStack then
      if Imprimible(m) then Some(m.(fin := true)) else None
    else
      var offset := m.pcb.dirCont - m.pcb.dirSegStack - 8;
      if !InRange(m, offset, 8) then Some(Falla(m))
      else
        var anterior := Leido(m, offset);
        Regenerada(ConPcb(m, DivC(m.pcb.dirCont - anterior - 8, 5), Leido(m, offset + 4), anterior))
  }

  function Retornada(m: Maquina, valor: int): Option<Maquina> {
    var offset := m.pcb.dirCont - m.pcb.dirSegStack - 12;
    if !InRange(m, offset, 12) then Some(Falla(m))
    else
      var anterior := Leido(m, offset);
      var donde := Leido(m, offset + 8) - m.pcb.dirSegStack + 1;
      match Regenerada(ConPcb(m, DivC(m.pcb.dirCont - anterior - 12, 5), Leido(m, offset + 4), anterior))
      case None => None
      case Some(m1) =>
        // a fault on this last write is only reported
        Some(if InRange(m1, donde, 4) then Escribir(m1, donde, Encode(valor)) else m1)
  }

  /** One primitive; None when the CPU process itself dies. */
  function Paso(m: Maquina, op: Op): Option<Maquina> {
    match op
    case Avanzar => Some(m.(pcb := m.pcb.(pc := m.pcb.pc + 1)))
    case Definir(id, basura) => Some(Definida(m, id, basura))
    case Asignar(dir, valor) => Some(Asignada(m, dir, valor))
    case IrALabel(destino) => Some(if destino != -1 then m.(pcb := m.pcb.(pc := destino)) else m.(fin := true))
    case LlamarSinRetorno(destino) => Some(LlamadaSin(m, destino))
    case LlamarConRetorno(destino, donde) => Some(LlamadaCon(m, destino, donde))
    case Finalizar => Finalizada(m)
    case Retornar(valor) => Retornada(m, valor)
  }

  function Correr(m: Maquina, ops: seq<Op>): Option<Maquina>
    decreases |ops|
  {
    if ops == [] then Some(m)
    else
      match Paso(m, ops[0])
      case None => None
      case Some(m1) => Correr(m1, ops[1..])
  }

  /** The primitives of successive lines or quanta, one after the other. */
  function Juntos(quanta: seq<seq<Op>>): seq<Op> {
    if quanta == [] then [] else quanta[0] + Juntos(quanta[1..])
  }

  /** obtenerPosicionVariable; None when the original follows a null pointer. */
  function Posicion(m: Maquina, id: byte): Option<int> {
    if Caracter(id) in m.dic then Some(m.dic[Caracter(id)]) else None
  }

  /** dereferenciar: None when the access faults. */
  function Dereferenciado(m: Maquina, dir: int): Option<int> {
    var offset := dir - m.pcb.dirSegStack + 1;
    if InRange(m, offset, 4) then Some(Leido(m, offset)) else None
  }

  /** Running one list after another is running their concatenation. */
  lemma {:induction false} CorrerConcat(m: Maquina, a: seq<Op>, b: seq<Op>)
    ensures Correr(m, a + b) == match Correr(m, a) case None => None case Some(m1) => Correr(m1, b)
    decreases |a|
  {
    if a == [] {
      assert a + b == b;
    } else {
      assert (a + b)[1..] == a[1..] + b;
      match Paso(m, a[0])
      case None =>
      case Some(m1) => CorrerConcat(m1, a[1..], b);
    }
  }

  /** Two control blocks agree on the seven fields the kernel does not take over from a CPU. */
  predicate SameFixedPart(p: Pcb, q: Pcb) {
    q == p.(cantVar := q.cantVar, pc := q.pc, dirCont := q.dirCont)
  }

  /** Only three fields of the control block and the bytes of the segment ever change. */
  predicate SameShape(m: Maquina, n: Maquina) {
    SameFixedPart(m.pcb, n.pcb) && |n.pila| == |m.pila|
  }

  lemma EscribirKeeps(m: Maquina, offset: int, b: seq<byte>)
    ensures SameShape(m, Escribir(m, offset, b)) && Escribir(m, offset, b).pcb == m.pcb
  {
  }

  lemma PreservadoKeeps(m: Maquina)
    ensures SameShape(m, Preservado(m)) && Preservado(m).pcb == m.pcb
  {
    var m1 := Escribir(m, Tope(m), Encode(m.pcb.dirCont));
    EscribirKeeps(m, Tope(m), Encode(m.pcb.dirCont));
    EscribirKeeps(m1, Tope(m) + 4, Encode(m.pcb.pc));
  }

  lemma PasoKeeps(m: Maquina, op: Op)
    ensures Paso(m, op).Some? ==> SameShape(m, Paso(m, op).value)
  {
    match op
    case LlamarSinRetorno(_) => PreservadoKeeps(m);
    case LlamarConRetorno(_, donde) =>
      PreservadoKeeps(m);
      EscribirKeeps(Preservado(m), Tope(m) + 8, Encode(donde));
    case _ =>
  }

  /** The same over a whole run. */
  lemma {:induction false} OnlyThreeFields(m: Maquina, ops: seq<Op>)
    ensures Correr(m, ops).Some? ==> SameShape(m, Correr(m, ops).value)
    decreases |ops|
  {
    if ops != [] && Paso(m, ops[0]).Some? {
      var m1 := Paso(m, ops[0]).value;
      PasoKeeps(m, ops[0]);
      OnlyThreeFields(m1, ops[1..]);
    }
  }

  /** The same machine but for the variable dictionary. */
  predicate Igual(m: Maquina, n: Maquina) {
    n == m.(dic := n.dic)
  }

  /** A process that goes on has met no fault. */
  predicate Limpia(m: Maquina) {
    !m.fin ==> !m.segFault && m.avisos == 0
  }

  lemma RegeneradaIgual(m: Maquina, n: Maquina)
    requires Igual(m, n)
    ensures Regenerada(m) == Regenerada(n)
  {
    hide Escaneo;
  }

  lemma FinalizadaIgual(m: Maquina, n: Maquina)
    requires Igual(m, n)
    ensures Finalizada(m).Some? <==> Finalizada(n).Some?
    ensures Finalizada(m).Some? ==> Igual(Finalizada(m).value, Finalizada(n).value)
  {
    hide IntAt, DivC, Regenerada;
    var offset := m.pcb.dirCont - m.pcb.dirSegStack - 8;
    if InRange(m, offset, 8) {
      var anterior := Leido(m, offset);
      var (cv, pc) := (DivC(m.pcb.dirCont - anterior - 8, 5), Leido(m, offset + 4));
      RegeneradaIgual(ConPcb(m, cv, pc, anterior), ConPcb(n, cv, pc, anterior));
    }
  }

  lemma RetornadaIgual(m: Maquina, n: Maquina, valor: int)
    requires Igual(m, n)
    ensures Retornada(m, valor).Some? <==> Retornada(n, valor).Some?
    ensures Retornada(m, valor).Some? ==> Igual(Retornada(m, valor).value, Retornada(n, valor).value)
  {
    hide Encode, Splice, IntAt, DivC, Regenerada;
    var offset := m.pcb.dirCont - m.pcb.dirSegStack - 12;
    if InRange(m, offset, 12) {
      var anterior := Leido(m, offset);
      var (cv, pc) := (DivC(m.pcb.dirCont - anterior - 12, 5), Leido(m, offset + 4));
      RegeneradaIgual(ConPcb(m, cv, pc, anterior), ConPcb(n, cv, pc, anterior));
    }
  }

  lemma PreservadoIgual(m: Maquina, n: Maquina)
    requires Igual(m, n)
    ensures Igual(Preservado(m), Preservado(n)) && Preservado(m).pcb == m.pcb
  {
    hide Encode, Splice;
  }

  lemma LlamadasIgual(m: Maquina, n: Maquina, destino: int, donde: int)
    requires Igual(m, n)
    ensures Igual(LlamadaSin(m, destino), LlamadaSin(n, destino))
    ensures Igual(LlamadaCon(m, destino, donde), LlamadaCon(n, destino, donde))
  {
    hide Encode, Splice, Preservado;
    PreservadoIgual(m, n);
  }

  /** No primitive looks at the dictionary. */
  lemma PasoIgual(m: Maquina, n: Maquina, op: Op)
    requires Igual(m, n)
    ensures Paso(m, op).Some? <==> Paso(n, op).Some?
    ensures Paso(m, op).Some? ==> Igual(Paso(m, op).value, Paso(n, op).value)
  {
    hide Encode, Splice, Finalizada, Retornada, LlamadaSin, LlamadaCon;
    match op
    case LlamarSinRetorno(destino) => LlamadasIgual(m, n, destino, 0);
    case LlamarConRetorno(destino, donde) => LlamadasIgual(m, n, destino, donde);
    case Finalizar => FinalizadaIgual(m, n);
    case Retornar(valor) => RetornadaIgual(m, n, valor);
    case _ =>
  }

  lemma {:induction false} CorrerIgual(m: Maquina, n: Maquina, ops: seq<Op>)
    requires Igual(m, n)
    ensures Correr(m, ops).Some? <==> Correr(n, ops).Some?
    ensures Correr(m, ops).Some? ==> Igual(Correr(m, ops).value, Correr(n, ops).value)
    decreases |ops|
  {
    hide Paso;
    if ops != [] {
      PasoIgual(m, n, ops[0]);
      if Paso(m, ops[0]).Some? {
        CorrerIgual(Paso(m, ops[0]).value, Paso(n, ops[0]).value, ops[1..]);
      }
    }
  }

  lemma PasoLimpia(m: Maquina, op: Op)
    requires Limpia(m) && Paso(m, op).Some?
    ensures Limpia(Paso(m, op).value)
  {
    hide Encode, Splice, IntAt, DivC, Escaneo;
  }

  lemma {:induction false} CorrerLimpia(m: Maquina, ops: seq<Op>)
    requires Limpia(m) && Correr(m, ops).Some?
    ensures Limpia(Correr(m, ops).value)
    decreases |ops|
  {
    hide Paso;
    if ops != [] {
      PasoLimpia(m, ops[0]);
      CorrerLimpia(Paso(m, ops[0]).value, ops[1..]);
    }
  }

  /** The dictionary of the current context is the one a scan of its name bytes finds. */
  predicate AlCorriente(m: Maquina) {
    Legible(m) && m.dic == Indice(m)
  }

  /** After a fault no assignment reaches the memory server, however many follow. */
  lemma {:induction false} NoWriteAfterFault(m: Maquina, ops: seq<Op>)
    requires m.segFault && forall i :: 0 <= i < |ops| ==> ops[i].Asignar?
    ensures Correr(m, ops) == Some(m)
    decreases |ops|
  {
    if ops != [] {
      NoWriteAfterFault(m, ops[1..]);
    }
  }

  /** A `retornar` that the CPU survives marks a fault if and only if it cannot read the linkage; a receiving variable out
      of range is passed over. */
  lemma RetornarFaultsIff(m: Maquina, valor: int)
    requires !m.segFault && Paso(m, Retornar(valor)).Some?
    ensures Paso(m, Retornar(valor)).value.segFault <==> !InRange(m, m.pcb.dirCont - m.pcb.dirSegStack - 12, 12)
  {
    hide Encode, Splice, IntAt, DivC, Escaneo;
  }

  /** Where the program goes on: behind the line it ran, or at the label; a missing label ends it. Nothing else of
      the machine changes, and the run after a jump is the run from the label. */
  lemma Continues(m: Maquina, destino: int, ops: seq<Op>)
    ensures Correr(m, [Avanzar] + ops) == Correr(m.(pcb := m.pcb.(pc := m.pcb.pc + 1)), ops)
    ensures destino != -1 ==> Correr(m, [IrALabel(destino)] + ops) == Correr(m.(pcb := m.pcb.(pc := destino)), ops)
    ensures destino == -1 ==> Correr(m, [IrALabel(destino)] + ops) == Correr(m.(fin := true), ops)
  {
    assert ([Avanzar] + ops)[1..] == ops;
    assert ([IrALabel(destino)] + ops)[1..] == ops;
  }
}
