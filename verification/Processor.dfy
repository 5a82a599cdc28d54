/** The CPU process: its globals, its requests to the memory server, and the primitives as it runs them. */
module Processor {
  import opened Bytes
  import opened Wire
  import opened CallStack
  import Refinement
  import SegmentTable
  import MemoryServer

  class Cpu {
    const umv: MemoryServer.Umv
    var pcb: Pcb
    var dic: map<byte, int>   // dic_Variables
    var fin: bool             // fueFinEjecucion
    var segFault: bool        // huboSegFault
    var avisos: nat           // SEGMEN_FAULT reports since the dispatch
    var quantumMax: int

    ghost predicate Valid()
      reads this, umv
    {
      umv.Valid() && Clave() in SegmentTable.Claves(umv.segs)
    }

    /** The name of its stack segment. */
    function Clave(): SegmentTable.Nombre
      reads this
    {
      (pcb.id, pcb.dirSegStack)
    }

    /** The machine of the running process: its stack bytes are the ones the memory server keeps. */
    ghost function Vista(): Maquina
      reads this, umv, umv.mem
      requires Valid()
    {
      Maquina(pcb, umv.Store()[Clave()], dic, fin, segFault, avisos)
    }

    /** Nothing else in the memory server differs from `was`. */
    ghost predicate SoloLaPila(was: SegmentTable.Almacen)
      reads this, umv, umv.mem
      requires Valid()
    {
      umv.Store() == was[Clave() := Vista().pila]
    }

    constructor (servidor: MemoryServer.Umv, inicial: Pcb)
      requires servidor.Valid() && (inicial.id, inicial.dirSegStack) in SegmentTable.Claves(servidor.segs)
      ensures Valid() && umv == servidor && pcb == inicial && dic == map[] && !fin && !segFault && avisos == 0
    {
      umv := servidor;
      pcb := inicial;
      dic := map[];
      fin, segFault, avisos := false, false, 0;
    }

    lemma SinCambios()
      requires Valid()
      ensures SoloLaPila(umv.Store())
    {
    }

    // ---- Requests to the memory server ----

    /** SOL_BYTES on the stack segment. */
    method Leer(offset: int, tam: nat) returns (r: Option<seq<byte>>)
      requires Valid()
      ensures r == if InRange(Vista(), offset, tam) then Some(Vista().pila[offset..offset + tam]) else None
    {
      var l := umv.SolicitarBytes(pcb.id, pcb.dirSegStack, offset, tam, seq(tam, _ => 0));
      r := if l.SegmentFault? then None else Some(l.bytes);
    }

    /** ALM_BYTES on the stack segment. */
    method Escribir(offset: int, b: seq<byte>) returns (ok: bool)
      requires Valid()
      modifies umv.mem
      ensures Valid() && ok == InRange(old(Vista()), offset, |b|)
      ensures Vista() == if ok then old(Vista()).(pila := Splice(old(Vista()).pila, offset, b)) else old(Vista())
      ensures SoloLaPila(old(umv.Store()))
    {
      var e := umv.AlmacenarBytes(pcb.id, pcb.dirSegStack, offset, b);
      ok := e.Almacenado?;
    }

    /** finalizarContexto(SEGMEN_FAULT) */
    method FinalizarPorFallo()
      requires Valid()
      modifies this`fin, this`segFault, this`avisos
      ensures Valid() && Vista() == Falla(old(Vista()))
    {
      fin, segFault, avisos := true, true, avisos + 1;
    }

    /** A write whose fault ends the process. */
    method EscribirOFallar(offset: int, b: seq<byte>) returns (ok: bool)
      requires Valid()
      modifies umv.mem, this`fin, this`segFault, this`avisos
      ensures Valid() && ok == InRange(old(Vista()), offset, |b|)
      ensures Vista() == CallStack.Escribir(old(Vista()), offset, b)
      ensures SoloLaPila(old(umv.Store()))
    {
      ok := Escribir(offset, b);
      if !ok {
        FinalizarPorFallo();
      }
    }

    // ---- The dictionary ----

    method RegenerarDiccVar()
      requires Valid() && Legible(Vista())
      modifies this`dic
      ensures Valid() && Some(Vista()) == Regenerada(old(Vista()))
    {
      hide Encode, Decode, SegmentTable.Contenido, SegmentTable.Valid;
      ghost var pila := Vista().pila;
      dic := map[];
      var i := 0;
      while i < pcb.cantVar
        invariant 0 <= i && (i <= pcb.cantVar || i == 0) && Vista().pila == pila
        invariant i > 0 ==> pcb.dirCont >= pcb.dirSegStack && pcb.dirCont - pcb.dirSegStack + 5 * (i - 1) < |pila|
        invariant dic == if i == 0 then map[] else Escaneo(pila, pcb.dirCont - pcb.dirSegStack, pcb.dirCont, i)
      {
        var offset := pcb.dirCont - pcb.dirSegStack + i * 5;
        var nombre := Leer(offset, 1);
        dic := dic[Caracter(nombre.value[0]) := pcb.dirSegStack + offset];
        i := i + 1;
      }
    }

    // ---- The primitives ----

    method DefinirVariable(id: byte, basura: Palabra) returns (pos: int)
      requires Valid()
      modifies umv.mem, this`pcb, this`dic, this`fin, this`segFault, this`avisos
      ensures Valid() && Paso(old(Vista()), Definir(id, basura)) == Some(Vista())
      ensures SoloLaPila(old(umv.Store()))
      ensures pos == if InRange(old(Vista()), Tope(old(Vista())), 5) then pcb.dirSegStack + Tope(old(Vista())) else -1
    {
      hide Encode, Splice, SegmentTable.Contenido, SegmentTable.Valid;
      var offset := pcb.dirCont - pcb.dirSegStack + pcb.cantVar * 5;
      pos := pcb.dirSegStack + offset;
      var ok := Escribir(offset, [Caracter(Caracter(id))] + basura);
      if ok {
        dic := dic[Caracter(id) := pos];
        pcb := pcb.(cantVar := pcb.cantVar + 1);
      } else {
        FinalizarPorFallo();
        pos := -1;
      }
    }

    /** An undefined name is a null pointer in the original. */
    method ObtenerPosicionVariable(id: byte) returns (pos: int)
      requires Valid() && Posicion(Vista(), id).Some?
      ensures Some(pos) == Posicion(Vista(), id)
    {
      pos := dic[Caracter(id)];
    }

    /** The value is unspecified when the access faults. */
    method Dereferenciar(dir: int) returns (valor: Option<int>)
      requires Valid()
      modifies this`fin, this`segFault, this`avisos
      ensures Valid() && valor == Dereferenciado(old(Vista()), dir)
      ensures Vista() == if valor.Some? then old(Vista()) else Falla(old(Vista()))
    {
      hide Decode, SegmentTable.Contenido, SegmentTable.Valid;
      var r := Leer(dir - pcb.dirSegStack + 1, 4);
      if r.None? {
        FinalizarPorFallo();
        return None;
      }
      valor := Some(Decode(r.value));
    }

    method Asignar(dir: int, valor: int)
      requires Valid()
      modifies umv.mem, this`fin, this`segFault, this`avisos
      ensures Valid() && Paso(old(Vista()), Op.Asignar(dir, valor)) == Some(Vista())
      ensures SoloLaPila(old(umv.Store()))
    {
      hide Encode, Splice, SegmentTable.Contenido, SegmentTable.Valid;
      if !segFault {
        var ok := EscribirOFallar(dir - pcb.dirSegStack + 1, Encode(valor));
      } else {
        SinCambios();
      }
    }

    method IrAlLabel(destino: int)
      requires Valid()
      modifies this`pcb, this`fin
      ensures Valid() && Paso(old(Vista()), IrALabel(destino)) == Some(Vista())
    {
      if destino != -1 {
        pcb := pcb.(pc := destino);
      } else {
        fin := true;
      }
    }

    method PreservarContexto()
      requires Valid()
      modifies umv.mem, this`fin, this`segFault, this`avisos
      ensures Valid() && Vista() == Preservado(old(Vista()))
      ensures SoloLaPila(old(umv.Store()))
    {
      hide Encode, Splice, SegmentTable.Contenido, SegmentTable.Valid;
      var offset := pcb.dirCont - pcb.dirSegStack + pcb.cantVar * 5;
      var ok := EscribirOFallar(offset, Encode(pcb.dirCont));
      if ok {
        ok := EscribirOFallar(offset + 4, Encode(pcb.pc));
      }
    }

    method ActualizarPcb(cantVar: int, pc: int, dirCont: int)
      requires Valid()
      modifies this`pcb
      ensures Valid() && Vista() == ConPcb(old(Vista()), cantVar, pc, dirCont)
    {
      pcb := pcb.(cantVar := cantVar, pc := pc, dirCont := dirCont);
    }

    method LlamarSinRetorno(destino: int)
      requires Valid()
      modifies umv.mem, this`pcb, this`dic, this`fin, this`segFault, this`avisos
      ensures Valid() && Paso(old(Vista()), Op.LlamarSinRetorno(destino)) == Some(Vista())
      ensures SoloLaPila(old(umv.Store()))
    {
      hide Encode, Splice, SegmentTable.Contenido, SegmentTable.Valid;
      PreservadoKeeps(Vista());
      PreservarContexto();
      pcb := pcb.(dirCont := pcb.dirCont + 5 * pcb.cantVar + 8);
      pcb := pcb.(cantVar := 0);
      RegenerarDiccVar();
      pcb := pcb.(pc := destino);
    }

    method LlamarConRetorno(destino: int, donde: int)
      requires Valid()
      modifies umv.mem, this`pcb, this`dic, this`fin, this`segFault, this`avisos
      ensures Valid() && Paso(old(Vista()), Op.LlamarConRetorno(destino, donde)) == Some(Vista())
      ensures SoloLaPila(old(umv.Store()))
    {
      hide Encode, Splice, SegmentTable.Contenido, SegmentTable.Valid;
      PreservadoKeeps(Vista());
      PreservarContexto();
      var offset := pcb.dirCont - pcb.dirSegStack + pcb.cantVar * 5 + 8;
      var ok := EscribirOFallar(offset, Encode(donde));
      if ok {
        pcb := pcb.(dirCont := pcb.dirSegStack + offset + 4);
        pcb := pcb.(cantVar := 0);
        RegenerarDiccVar();
        pcb := pcb.(pc := destino);
      }
    }

    /** The words of a linkage read in one request. */
    method LeerEnlace(tam: nat) returns (r: Option<seq<int>>)
      requires Valid() && (tam == 8 || tam == 12)
      ensures var m := Vista();
              var offset := m.pcb.dirCont - m.pcb.dirSegStack - tam;
              && (r.Some? <==> InRange(m, offset, tam))
              && (r.Some? ==> |r.value| == tam / 4 && r.value[0] == Leido(m, offset) && r.value[1] == Leido(m, offset + 4)
                              && (tam == 12 ==> r.value[2] == Leido(m, offset + 8)))
    {
      hide Decode, SegmentTable.Contenido, SegmentTable.Valid;
      var offset := pcb.dirCont - pcb.dirSegStack - tam;
      var dato := Leer(offset, tam);
      if dato.None? {
        return None;
      }
      SliceOfSlice(Vista().pila, offset, offset + tam, 0, 4);
      SliceOfSlice(Vista().pila, offset, offset + tam, 4, 8);
      var palabras := [Decode(dato.value[0..4]), Decode(dato.value[4..8])];
      if tam == 12 {
        SliceOfSlice(Vista().pila, offset, offset + tam, 8, 12);
        palabras := palabras + [Decode(dato.value[8..12])];
      }
      r := Some(palabras);
    }

    /** The variables finalizarContexto(OK) sends to the console of the program. */
    method ListarVariables() returns (lineas: seq<(byte, int)>)
      requires Valid() && Imprimible(Vista()) && pcb.dirCont == pcb.dirSegStack
      ensures lineas == Impresas(Vista())
    {
      hide Decode, Impresas, SegmentTable.Contenido, SegmentTable.Valid;
      ImpresasLargo(Vista());
      lineas := [];
      var i := 0;
      while i < pcb.cantVar
        invariant 0 <= i && (i <= pcb.cantVar || i == 0)
        invariant i <= |Impresas(Vista())| && lineas == Impresas(Vista())[..i]
      {
        ImpresasHasta(Vista(), i);
        var nombre := Leer(5 * i, 1);
        var valor := Leer(5 * i + 1, 4);
        lineas := lineas + [(nombre.value[0], Decode(valor.value))];
        i := i + 1;
      }
    }

    /** `lineas` is what is sent to the console of the program: the variables of the outermost context, when it ends. */
    method Finalizar() returns (lineas: seq<(byte, int)>)
      requires Valid() && Finalizada(Vista()).Some?
      modifies this`pcb, this`dic, this`fin, this`segFault, this`avisos
      ensures Valid() && Paso(old(Vista()), Op.Finalizar) == Some(Vista())
      ensures Clave() == old(Clave())
      ensures lineas == if old(pcb).dirCont == old(pcb).dirSegStack then Impresas(old(Vista())) else []
      ensures forall a :: Refinement.Rep(old(Vista()), a) && a.susp.Fondo? ==> lineas == Refinement.Lineas(a.vars)
    {
      hide Decode, Impresas, Refinement.Rep, Refinement.Lineas, SegmentTable.Contenido, SegmentTable.Valid;
      ListingOf(Vista());
      lineas := [];
      if pcb.dirCont == pcb.dirSegStack {
        lineas := ListarVariables();
        fin := true;
        return;
      }
      var r := LeerEnlace(8);
      if r.None? {
        FinalizarPorFallo();
        return;
      }
      ActualizarPcb(DivC(pcb.dirCont - r.value[0] - 8, 5), r.value[1], r.value[0]);
      RegenerarDiccVar();
    }

    method Retornar(retorno: int)
      requires Valid() && Retornada(Vista(), retorno).Some?
      modifies umv.mem, this`pcb, this`dic, this`fin, this`segFault, this`avisos
      ensures Valid() && Paso(old(Vista()), Op.Retornar(retorno)) == Some(Vista())
      ensures SoloLaPila(old(umv.Store()))
    {
      hide Decode, Encode, Splice, SegmentTable.Contenido, SegmentTable.Valid, Escaneo, Indice, IntAt, DivC;
      var r := LeerEnlace(12);
      if r.None? {
        FinalizarPorFallo();
        SinCambios();
        return;
      }
      ActualizarPcb(DivC(pcb.dirCont - r.value[0] - 12, 5), r.value[1], r.value[0]);
      RegenerarDiccVar();
      var ok := Escribir(r.value[2] - pcb.dirSegStack + 1, Encode(retorno));
    }

    // ---- The quantum ----

    method Ejecutar(op: Op)
      requires Valid() && Paso(Vista(), op).Some?
      modifies umv.mem, this`pcb, this`dic, this`fin, this`segFault, this`avisos
      ensures Valid() && Paso(old(Vista()), op) == Some(Vista())
      ensures SoloLaPila(old(umv.Store()))
    {
      hide Encode, Splice, SegmentTable.Contenido, SegmentTable.Valid;
      hide Definida, Asignada, LlamadaSin, LlamadaCon, Finalizada, Retornada;
      SinCambios();
      match op {
        case Avanzar => pcb := pcb.(pc := pcb.pc + 1);
        case Definir(id, basura) => var pos := DefinirVariable(id, basura);
        case Asignar(dir, valor) => Asignar(dir, valor);
        case IrALabel(destino) => IrAlLabel(destino);
        case LlamarSinRetorno(destino) => LlamarSinRetorno(destino);
        case LlamarConRetorno(destino, donde) => LlamarConRetorno(destino, donde);
        case Finalizar => var lineas := Finalizar();
        case Retornar(valor) => Retornar(valor);
      }
    }

    /** One line of the program: whatever primitives the parser calls for it, in order. */
    method EjecutarLinea(ops: seq<Op>)
      requires Valid() && Correr(Vista(), ops).Some?
      modifies umv.mem, this`pcb, this`dic, this`fin, this`segFault, this`avisos
      ensures Valid() && Correr(old(Vista()), ops) == Some(Vista())
      ensures SoloLaPila(old(umv.Store())) && Clave() == old(Clave())
    {
      hide SegmentTable.Contenido, SegmentTable.Valid, CallStack.Paso;
      SinCambios();
      var i := 0;
      while i < |ops|
        invariant 0 <= i <= |ops| && Valid()
        invariant Correr(Vista(), ops[i..]) == Correr(old(Vista()), ops)
        invariant SoloLaPila(old(umv.Store())) && Clave() == old(Clave())
      {
        PasoKeeps(Vista(), ops[i]);
        Ejecutar(ops[i]);
        i := i + 1;
      }
    }

    /** The loop of `main` between receiving a control block and handing it back. */
    method CorrerQuantum(lineas: seq<seq<Op>>, max: int)
      requires Valid() && Quantum(Vista(), lineas, max).Some?
      modifies umv.mem, this`pcb, this`dic, this`fin, this`segFault, this`avisos
      ensures Valid() && Quantum(old(Vista()), lineas, max) == Some(Vista())
      ensures SoloLaPila(old(umv.Store())) && Clave() == old(Clave())
    {
      hide SegmentTable.Contenido, SegmentTable.Valid, Correr;
      SinCambios();
      var actual := 0;
      while actual < max && !fin && actual < |lineas|
        invariant 0 <= actual <= |lineas| && Valid()
        invariant Quantum(Vista(), lineas[actual..], max - actual) == Quantum(old(Vista()), lineas, max)
        invariant SoloLaPila(old(umv.Store())) && Clave() == old(Clave())
      {
        EjecutarLinea(lineas[actual]);
        actual := actual + 1;
      }
    }

    // ---- The connection to the kernel ----

    /** `recibirUnPcb` and `regenerar_dicc_var`, on the bytes of the message. A message of another type is refused,
        and the original then goes on with a block it has freed: nothing is promised. */
    method RecibirUnPcb(stream: array<byte>) returns (ok: bool)
      requires umv.Valid() && Readable(ClaseQuantum, stream[..])
      requires Deserialized(ClaseQuantum, stream[..]).tipo == PCB_Y_QUANTUM ==>
        var p := Deserialized(ClaseQuantum, stream[..]).pcb;
        && (p.id, p.dirSegStack) in umv.Store()
        && Legible(Maquina(p, umv.Store()[(p.id, p.dirSegStack)], map[], false, false, 0))
      modifies this`pcb, this`dic, this`fin, this`segFault, this`avisos, this`quantumMax
      ensures ok <==> Deserialized(ClaseQuantum, stream[..]).tipo == PCB_Y_QUANTUM
      ensures ok ==> Valid() && QuantumPcb(PCB_Y_QUANTUM, quantumMax, pcb) == Deserialized(ClaseQuantum, stream[..])
      ensures ok ==> Some(Vista()) == Regenerada(Maquina(pcb, Vista().pila, map[], false, false, 0))
      ensures umv.Store() == old(umv.Store())
    {
      hide Decode, IntAt, SegmentTable.Valid;
      var men := Deserializar(ClaseQuantum, stream);
      if men.tipo != PCB_Y_QUANTUM {
        return false;
      }
      pcb := men.pcb;
      quantumMax := men.quantum;
      fin, segFault, avisos := false, false, 0;
      RegenerarDiccVar();
      ok := true;
    }

    /** `enviar_pcb_destruir` */
    method EnviarPcb() returns (stream: array<byte>)
      ensures fresh(stream) && stream[..] == Serialized(QuantumPcb(PCB_Y_QUANTUM, 0, pcb))
    {
      stream := SerializarQuantumPcb(QuantumPcb(PCB_Y_QUANTUM, 0, pcb));
    }
  }

  lemma ListingOf(m: Maquina)
    ensures forall a :: Refinement.Rep(m, a) && a.susp.Fondo? ==>
      m.pcb.dirCont == m.pcb.dirSegStack && Imprimible(m) && Impresas(m) == Refinement.Lineas(a.vars)
  {
    forall a | Refinement.Rep(m, a) && a.susp.Fondo?
      ensures m.pcb.dirCont == m.pcb.dirSegStack && Imprimible(m) && Impresas(m) == Refinement.Lineas(a.vars)
    {
      hide Refinement.Image, Refinement.Diccionario, Impresas;
      Refinement.FinalListing(m, a);
    }
  }

  lemma ImpresasLargo(m: Maquina)
    requires Imprimible(m)
    ensures |Impresas(m)| == if m.pcb.cantVar > 0 then m.pcb.cantVar else 0
  {
  }

  lemma ImpresasHasta(m: Maquina, i: nat)
    requires Imprimible(m) && i < m.pcb.cantVar
    ensures |Impresas(m)| == m.pcb.cantVar && 5 * i + 5 <= |m.pila|
    ensures Impresas(m)[..i + 1] == Impresas(m)[..i] + [(m.pila[5 * i], IntAt(m.pila, 5 * i + 1))]
  {
    hide Decode;
  }

  /** The lines one quantum runs: no more than `max`, and none after the process has ended. */
  function Quantum(m: Maquina, lineas: seq<seq<Op>>, max: int): Option<Maquina>
    decreases |lineas|
  {
    if max <= 0 || m.fin || lineas == [] then Some(m)
    else
      match Correr(m, lineas[0])
      case None => None
      case Some(m1) => Quantum(m1, lineas[1..], max - 1)
  }

  /** A quantum is a prefix of the lines, cut only by the end of the process, of the quantum or of the lines. */
  lemma {:induction false} QuantumIsPrefix(m: Maquina, lineas: seq<seq<Op>>, max: int) returns (k: nat)
    requires Quantum(m, lineas, max).Some?
    ensures k <= |lineas| && (k == 0 || k <= max)
    ensures Correr(m, Juntos(lineas[..k])) == Quantum(m, lineas, max)
    ensures Quantum(m, lineas, max).value.fin || k >= max || k == |lineas|
    decreases |lineas|
  {
    k := 0;
    if !(max <= 0 || m.fin || lineas == []) {
      var m1 := Correr(m, lineas[0]).value;
      var j := QuantumIsPrefix(m1, lineas[1..], max - 1);
      k := j + 1;
      assert lineas[..k][0] == lineas[0] && lineas[..k][1..] == lineas[1..][..j];
      CorrerConcat(m, lineas[0], Juntos(lineas[1..][..j]));
    }
  }
}
