/** Cutting a run into quanta: the control block goes to the kernel and comes back after each of them. */
module Preemption {
  import opened Bytes
  import opened Wire
  import opened CallStack
  import opened Refinement
  import opened Calls
  import Scheduler

  /** A control block as the other end of the connection receives it. */
  function Transmitido(quantum: int, p: Pcb): (q: Pcb)
  {
    Deserialized(ClaseQuantum, Serialized(QuantumPcb(PCB_Y_QUANTUM, quantum, p))).pcb
  }

  /** The CPU after `recibirUnPcb` and `regenerar_dicc_var`, over the bytes the memory server holds. */
  function Cargada(quantum: int, kernel: Pcb, pila: seq<byte>): Option<Maquina> {
    Regenerada(Maquina(Transmitido(quantum, kernel), pila, map[], false, false, 0))
  }

  /** The kernel's block after `salirPorQuantum` and `recv_actualizar_pcb`. */
  function Devuelto(kernel: Pcb, m: Maquina): Pcb {
    Scheduler.Actualizado(kernel, Transmitido(0, m.pcb))
  }

  /** The kernel's block and the machine after running the quanta one by one. A process that has ended is
      not handed back, so nothing may be left to run. */
  function CorrerCortado(quantum: int, kernel: Pcb, pila: seq<byte>, quanta: seq<seq<Op>>): Option<(Pcb, Maquina)>
    decreases |quanta|
  {
    match Cargada(quantum, kernel, pila)
    case None => None
    case Some(m) =>
      if quanta == [] then Some((kernel, m))
      else
        match Correr(m, quanta[0])
        case None => None
        case Some(m1) =>
          if !m1.fin then CorrerCortado(quantum, Devuelto(kernel, m1), m1.pila, quanta[1..])
          else if Juntos(quanta[1..]) == [] then Some((kernel, m1))
          else None
  }

  lemma TransmitidoExacto(quantum: int, p: Pcb)
    requires IsInt32(quantum) && PcbFits(p)
    ensures Transmitido(quantum, p) == p
  {
    hide Encode, Decode, EncodeInts;
    RoundTrip(QuantumPcb(PCB_Y_QUANTUM, quantum, p));
  }

  /** Dispatching the block a process had over its bytes: the CPU survives if and only if the names can be read, and
      then it has the machine the process ran on, dictionary included if and only if a scan finds that dictionary. */
  lemma ReloadIff(quantum: int, m: Maquina)
    requires IsInt32(quantum) && PcbFits(m.pcb) && Limpia(m) && !m.fin
    ensures Cargada(quantum, m.pcb, m.pila).Some? <==> Legible(m)
    ensures Legible(m) ==> Igual(m, Cargada(quantum, m.pcb, m.pila).value)
    ensures Cargada(quantum, m.pcb, m.pila) == Some(m) <==> AlCorriente(m)
  {
    hide Transmitido, Escaneo;
    TransmitidoExacto(quantum, m.pcb);
  }

  /** The dictionary can be lost: a write through an address that is no variable renames one. Two variables, `A` and
      `B`, a write through address 1 whose last byte is the name of `B`: no fault, but after the next dispatch
      the process has no `B`. */
  lemma PointerWriteLosesName(quantum: int, p: Pcb, pila: seq<byte>)
    requires IsInt32(quantum) && PcbFits(p) && p.cantVar == p.dirCont == p.dirSegStack == 0 && |pila| >= 10
    ensures var cero: Palabra := [0, 0, 0, 0];
            var ops := [Definir(65, cero), Definir(66, cero), Asignar(1, 0x4300_0000)];
            var r := Correr(Maquina(p, pila, map[], false, false, 0), ops);
            && r.Some? && !r.value.fin && 66 in r.value.dic
            && var n := Cargada(quantum, r.value.pcb, r.value.pila);
            n.Some? && 66 !in n.value.dic && 67 in n.value.dic
  {
    hide Transmitido, Splice;
    var cero: Palabra := [0, 0, 0, 0];
    var m0 := Maquina(p, pila, map[], false, false, 0);
    var m1 := Definida(m0, 65, cero);
    var m2 := Definida(m1, 66, cero);
    var m3 := Asignada(m2, 1, 0x4300_0000);
    assert Encode(0x4300_0000) == [0, 0, 0, 0x43];
    NamesAfter(pila, cero);
    var ops := [Definir(65, cero), Definir(66, cero), Asignar(1, 0x4300_0000)];
    CorrerUna(m0, ops);
    CorrerUna(m1, ops[1..]);
    CorrerUna(m2, ops[2..]);
    assert ops[1..][1..] == ops[2..] && ops[2..][1..] == [];
    ReloadIff(quantum, m3);
    assert m3.pila[0] == 65 && m3.pila[5] == 67;
    assert Escaneo(m3.pila, 0, 0, 1) == map[][Caracter(65) := 0];
    assert Indice(m3) == Escaneo(m3.pila, 0, 0, 1)[Caracter(67) := 5];
  }

  lemma NamesAfter(pila: seq<byte>, cero: Palabra)
    requires |pila| >= 10
    ensures var r := Splice(Splice(Splice(pila, 0, [65] + cero), 5, [66] + cero), 2, [0, 0, 0, 0x43]);
            r[0] == 65 && r[5] == 67
  {
  }

  lemma CorrerUna(m: Maquina, ops: seq<Op>)
    requires ops != [] && Paso(m, ops[0]).Some?
    ensures Correr(m, ops) == Correr(Paso(m, ops[0]).value, ops[1..])
  {
    hide Paso;
  }

  lemma RepFits(m: Maquina, a: Pila)
    requires Rep(m, a)
    ensures PcbFits(m.pcb)
  {
    hide Image, Diccionario;
  }

  /** Dispatching the block of a fault-free run over its bytes gives the machine it ran on. */
  lemma ReloadIsExact(quantum: int, m: Maquina, a: Pila)
    requires IsInt32(quantum) && Rep(m, a) && !m.fin
    ensures Cargada(quantum, m.pcb, m.pila) == Some(m)
  {
    hide Encode, Image, Diccionario, Escaneo, Transmitido;
    ReloadIff(quantum, m);
    IndexCoherent(m, a);
  }

  /** The three fields the kernel takes over are all that it had to learn, whatever the CPU ran. */
  lemma HandoverIsExact(kernel: Pcb, m: Maquina)
    requires PcbFits(m.pcb) && SameFixedPart(kernel, m.pcb)
    ensures Devuelto(kernel, m) == m.pcb
  {
    hide Transmitido;
    TransmitidoExacto(0, m.pcb);
  }

  // ---- Any run, cut anywhere ----

  /** Whenever the process is dispatched, its block fits int32_t. */
  predicate Caben(m: Maquina, quanta: seq<seq<Op>>)
    decreases |quanta|
  {
    PcbFits(m.pcb) &&
    (quanta != [] && Correr(m, quanta[0]).Some? && !Correr(m, quanta[0]).value.fin ==>
       Caben(Correr(m, quanta[0]).value, quanta[1..]))
  }

  /** Whenever the process is dispatched its names can be read, and the CPU does not die; a process that has ended
      has nothing left to run. */
  predicate Sobrevive(m: Maquina, quanta: seq<seq<Op>>)
    decreases |quanta|
  {
    Legible(m) &&
    (quanta != [] ==>
       && Correr(m, quanta[0]).Some?
       && var m1 := Correr(m, quanta[0]).value;
       if m1.fin then Juntos(quanta[1..]) == [] else Sobrevive(m1, quanta[1..]))
  }

  /** The uninterrupted run where the cuts fall. */
  function Cortes(m: Maquina, quanta: seq<seq<Op>>): (ms: seq<Maquina>)
    ensures ms != [] && ms[0] == m
    decreases |quanta|
  {
    if quanta == [] || Correr(m, quanta[0]).None? || Correr(m, quanta[0]).value.fin then [m]
    else [m] + Cortes(Correr(m, quanta[0]).value, quanta[1..])
  }

  /** The machines the CPUs start from. */
  function Despachos(quantum: int, kernel: Pcb, pila: seq<byte>, quanta: seq<seq<Op>>): seq<Maquina>
    decreases |quanta|
  {
    match Cargada(quantum, kernel, pila)
    case None => []
    case Some(m) =>
      if quanta == [] || Correr(m, quanta[0]).None? || Correr(m, quanta[0]).value.fin then [m]
      else
        var m1 := Correr(m, quanta[0]).value;
        [m] + Despachos(quantum, Devuelto(kernel, m1), m1.pila, quanta[1..])
  }

  /** One quantum after a dispatch, against the same primitives without it. */
  lemma OneQuantum(quantum: int, m: Maquina, ops: seq<Op>)
    requires IsInt32(quantum) && PcbFits(m.pcb) && Limpia(m) && !m.fin && Legible(m)
    ensures Cargada(quantum, m.pcb, m.pila).Some?
    ensures var n := Cargada(quantum, m.pcb, m.pila).value;
            && (Correr(m, ops).Some? <==> Correr(n, ops).Some?)
            && (Correr(m, ops).Some? ==>
                  var (m1, n1) := (Correr(m, ops).value, Correr(n, ops).value);
                  && Igual(m1, n1) && Limpia(m1) && SameShape(m, m1)
                  && (PcbFits(m1.pcb) ==> Devuelto(m.pcb, n1) == m1.pcb))
  {
    hide Correr, Cargada, Legible, Devuelto;
    ReloadIff(quantum, m);
    CorrerIgual(m, Cargada(quantum, m.pcb, m.pila).value, ops);
    if Correr(m, ops).Some? {
      CorrerLimpia(m, ops);
      OnlyThreeFields(m, ops);
      if PcbFits(Correr(m, ops).value.pcb) {
        HandoverIsExact(m.pcb, Correr(Cargada(quantum, m.pcb, m.pila).value, ops).value);
      }
    }
  }

  /** Any primitives, faults, stray writes and badly closed frames included, cut into quanta anywhere: the process
      gets through if and only if its names can be read at every dispatch and no quantum kills the CPU, and then it
      ends with the control block, the bytes and the flags of the uninterrupted run; and the kernel, which only
      ever copies three fields, ends with the whole control block unless the process ended on the CPU. */
  lemma {:induction false} AnyRunPreempted(quantum: int, m: Maquina, quanta: seq<seq<Op>>)
    requires IsInt32(quantum) && Limpia(m) && !m.fin && Caben(m, quanta)
    ensures CorrerCortado(quantum, m.pcb, m.pila, quanta).Some? <==> Sobrevive(m, quanta)
    ensures Sobrevive(m, quanta) ==>
      var u, r := Correr(m, Juntos(quanta)), CorrerCortado(quantum, m.pcb, m.pila, quanta);
      && u.Some? && Igual(u.value, r.value.1)
      && (!u.value.fin ==> r.value.0 == u.value.pcb)
      && SameFixedPart(r.value.0, u.value.pcb)
    decreases |quanta|
  {
    hide Correr, Cargada, Devuelto, Legible;
    ReloadIff(quantum, m);
    if Legible(m) {
      if quanta == [] {
        NoOps(m);
      } else {
        OneQuantum(quantum, m, quanta[0]);
        CorrerConcat(m, quanta[0], Juntos(quanta[1..]));
        if Correr(m, quanta[0]).Some? {
          var m1 := Correr(m, quanta[0]).value;
          NoOps(m1);
          if !m1.fin {
            AnyRunPreempted(quantum, m1, quanta[1..]);
          }
        }
      }
    }
  }

  lemma NoOps(m: Maquina)
    ensures Correr(m, []) == Some(m)
  {
  }

  /** Every dispatch finds the very machine that was cut off, so that every later lookup of a name gives what it
      would have given, if and only if the dictionary is that of a scan at each cut. */
  lemma {:induction false} DispatchesIff(quantum: int, m: Maquina, quanta: seq<seq<Op>>)
    requires IsInt32(quantum) && Limpia(m) && !m.fin && Caben(m, quanta) && Sobrevive(m, quanta)
    ensures Despachos(quantum, m.pcb, m.pila, quanta) == Cortes(m, quanta) <==>
      forall x :: x in Cortes(m, quanta) ==> AlCorriente(x)
    ensures Despachos(quantum, m.pcb, m.pila, quanta) == Cortes(m, quanta) ==>
      var u, r := Correr(m, Juntos(quanta)), CorrerCortado(quantum, m.pcb, m.pila, quanta);
      u.Some? && r.Some? && r.value.1 == u.value
    decreases |quanta|
  {
    hide Correr, Cargada, Devuelto, Legible, AlCorriente;
    ReloadIff(quantum, m);
    if quanta == [] {
      NoOps(m);
    } else {
      OneQuantum(quantum, m, quanta[0]);
      CorrerConcat(m, quanta[0], Juntos(quanta[1..]));
      var n, m1 := Cargada(quantum, m.pcb, m.pila).value, Correr(m, quanta[0]).value;
      NoOps(m1);
      if !m1.fin {
        DispatchesIff(quantum, m1, quanta[1..]);
        var (A, B) := (Despachos(quantum, m1.pcb, m1.pila, quanta[1..]), Cortes(m1, quanta[1..]));
        ConsEqual(n, A, m, B);
        AnyRunPreempted(quantum, m1, quanta[1..]);
      }
    }
  }

  lemma ConsEqual(x: Maquina, A: seq<Maquina>, y: Maquina, B: seq<Maquina>)
    ensures [x] + A == [y] + B <==> x == y && A == B
    ensures forall z :: z in [y] + B <==> z == y || z in B
  {
    assert ([x] + A)[1..] == A && ([y] + B)[1..] == B;
    assert ([x] + A)[0] == x && ([y] + B)[0] == y;
  }

  /** In particular, however a fault-free run is cut into quanta, it ends with the control block, the bytes, the dictionary
      and the flags of the uninterrupted run; and the kernel, which only ever copies three fields, ends with
      the whole control block unless the process ended on the CPU. */
  lemma {:induction false} PreemptionTransparent(quantum: int, m: Maquina, a: Pila, quanta: seq<seq<Op>>)
    requires IsInt32(quantum) && Rep(m, a) && !m.fin
    requires CorrerPila(m.pcb.dirSegStack, |m.pila|, a, Juntos(quanta)).Some?
    ensures var u, r := Correr(m, Juntos(quanta)), CorrerCortado(quantum, m.pcb, m.pila, quanta);
            && u.Some? && r.Some? && r.value.1 == u.value
            && (!u.value.fin ==> r.value.0 == u.value.pcb)
            && SameFixedPart(r.value.0, u.value.pcb)
    decreases |quanta|
  {
    hide Rep, Correr, CorrerPila, Cargada, Devuelto;
    var base, cap := m.pcb.dirSegStack, |m.pila|;
    ReloadIsExact(quantum, m, a);
    RunRefines(m, a, Juntos(quanta));
    if quanta == [] {
      SinOps(m, a);
    } else {
      var rest := Juntos(quanta[1..]);
      CorrerConcat(m, quanta[0], rest);
      CorrerPilaConcat(base, cap, a, quanta[0], rest);
      RunRefines(m, a, quanta[0]);
      OnlyThreeFields(m, quanta[0]);
      var m1, a1 := Correr(m, quanta[0]).value, CorrerPila(base, cap, a, quanta[0]).value;
      if m1.fin {
        NadaTrasFin(base, cap, m1, a1, rest);
      } else {
        RepFits(m1, a1);
        HandoverIsExact(m.pcb, m1);
        PreemptionTransparent(quantum, m1, a1, quanta[1..]);
      }
    }
  }

  lemma SinOps(m: Maquina, a: Pila)
    ensures Correr(m, []) == Some(m) && CorrerPila(m.pcb.dirSegStack, |m.pila|, a, []) == Some(a)
  {
  }

  /** A fault-free run does nothing after the process has ended. */
  lemma NadaTrasFin(base: int, cap: nat, m: Maquina, a: Pila, ops: seq<Op>)
    requires Rep(m, a) && m.fin && CorrerPila(base, cap, a, ops).Some?
    ensures ops == [] && Correr(m, ops) == Some(m)
  {
    hide Image, Diccionario;
  }

  /** A process that has just been admitted spells out the empty stack, so every theorem about runs starts
      with it. */
  lemma FreshProcess(p: Pcb, pila: seq<byte>)
    requires PcbFits(p) && p.dirSegStack >= 0 && IsInt32(p.dirSegStack + |pila|)
    requires p.cantVar == 0 && p.dirCont == p.dirSegStack
    ensures Rep(Maquina(p, pila, map[], false, false, 0), Refinement.Pila(Fondo, [], p.pc, false))
  {
    assert Image(p.dirSegStack, Refinement.Pila(Fondo, [], p.pc, false)) == [];
  }
}
