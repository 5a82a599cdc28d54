/** Many processes at once: dispatched, cut off, blocked and woken in any order, each of them runs as if it
    had the machine to itself. */
module Interleaving {
  import opened Bytes
  import opened Wire
  import opened CallStack
  import opened Refinement
  import opened Calls
  import opened Scheduler
  import opened Invariant
  import opened Steps
  import opened Runs
  import opened Preemption
  import opened Requests
  import SegmentTable

  // ---- Where the records of live processes come from ----

  /** Whether the process can still run: it is in a queue other than exit. */
  predicate Vive(s: Estado, p: Proceso) {
    p in s.nuevos || p in s.listos || p in s.exec || p in s.block
  }

  /** The process a step takes off its CPU. */
  function Baja(s: Estado, e: Evento): Option<int>
    requires Posible(s, e) && Sano(s, e)
  {
    match e
    case FinQuantum(soc, _, _) => Some(EnCpu(s, soc))
    case Wait(soc, k, _, _) => if k < |s.sems| && s.sems[k].valor > 0 then None else Some(EnCpu(s, soc))
    case Signal(soc, k) => if k < |s.sems| then None else Some(EnCpu(s, soc))
    case EnviarIO(soc, _, _, _) => Some(EnCpu(s, soc))
    case FinEjecucion(soc, _) => Some(EnCpu(s, soc))
    case VariableInexistente(soc) => Some(EnCpu(s, soc))
    case CpuCae(soc) => if Ocupada(s, soc) then Some(EnCpu(s, soc)) else None
    case ProgCierra(soc) =>
      var i := Primero(s.exec, PorSocket(soc));
      if i < |s.exec| then Some(s.exec[i].pcb.id) else None
    case _ => None
  }

  /** Whether that is the end of the process. */
  predicate Termina(s: Estado, e: Evento) {
    match e
    case Wait(_, k, _, _) => k >= |s.sems|
    case Signal(_, k) => k >= |s.sems|
    case FinEjecucion(_, _) => true
    case VariableInexistente(_) => true
    case ProgCierra(_) => true
    case _ => false
  }

  /** The process whose block a step hands back to the kernel, and that block. A CPU that is lost hands back nothing. */
  function Entrega(s: Estado, e: Evento): Option<(int, Pcb)>
    requires Posible(s, e) && Sano(s, e)
  {
    match e
    case FinQuantum(soc, men, cierra) => if cierra then None else Some((EnCpu(s, soc), men))
    case Wait(soc, k, men, _) => if k < |s.sems| && s.sems[k].valor <= 0 then Some((EnCpu(s, soc), men)) else None
    case EnviarIO(soc, _, men, _) => Some((EnCpu(s, soc), men))
    case _ => None
  }

  function Admitida(s: Estado, e: Evento): Option<Proceso> {
    match e
    case Admitir(soc, peso, resp) =>
      if resp.None? then None
      else
        var pcb := resp.value.(id := s.contador + 1, cantVar := 0, dirCont := resp.value.dirSegStack);
        Some(Proceso(pcb, soc, peso, SIN_FIN))
    case _ => None
  }

  lemma GiradaIn(q: seq<Proceso>, i: nat)
    requires i < |q|
    ensures forall p :: p in Girada(q, i) ==> p in q
  {
  }

  lemma SalidoIn(q: seq<Proceso>, soc: int)
    ensures forall p :: p in Salido(q, soc).0 ==> p in q
  {
  }

  lemma DesbloqueadoIn(s: Estado, id: int)
    ensures forall p :: Vive(Desbloqueado(s, id), p) ==> Vive(s, p)
  {
    var i := Primero(s.block, PorId(id));
    if i < |s.block| {
      GiradaIn(s.block, i);
    }
  }

  lemma DesalojadoIn(s: Estado, soc: int)
    requires Desalojado(s, soc).Some?
    ensures var (s1, c, p) := Desalojado(s, soc).value;
            && s1.nuevos == s.nuevos && s1.listos == s.listos && s1.block == s.block
            && p in s.exec && (forall q :: q in s1.exec ==> q in s.exec)
            && Primera(s.cpus, PorSocCpu(soc)) < |s.cpus| && p.pcb.id == s.cpus[Primera(s.cpus, PorSocCpu(soc))].idExec
  {
    GiradaIn(s.exec, Primero(s.exec, PorId(s.cpus[Primera(s.cpus, PorSocCpu(soc))].idExec)));
  }

  /** Whether `p` is the record of process `id` after its block came back. */
  ghost predicate Renovado(s: Estado, id: int, men: Pcb, p: Proceso) {
    exists q :: q in s.exec && q.pcb.id == id && p == q.(pcb := Actualizado(q.pcb, men))
  }

  /** After a step every live record is an old one, the one just handed back, or the one just admitted. */
  lemma OldOrRenewed(s: Estado, e: Evento, p: Proceso)
    requires Posible(s, e) && Sano(s, e) && Scheduler.Paso(s, e).Some? && Vive(Scheduler.Paso(s, e).value, p)
    ensures Vive(s, p)
         || (Entrega(s, e).Some? && Renovado(s, Entrega(s, e).value.0, Entrega(s, e).value.1, p))
         || Admitida(s, e) == Some(p)
  {
    hide Primero, Primera, PesoMin, Girada, Desalojado, Desbloqueado, Salido, ProgCerrado;
    match e
    case ProgCierra(soc) => ProgCerradoIn(s, soc);
    case NuevoAListo =>
      var i := Primero(s.nuevos, PorPeso(PesoMin(s.nuevos)));
      if i < |s.nuevos| {
        GiradaIn(s.nuevos, i);
      }
    case IoTermina(d) =>
      DesbloqueadoIn(s.(disps := s.disps[d := s.disps[d].(sirviendo := None)]), s.disps[d].sirviendo.value);
    case Signal(soc, k) =>
      if k < |s.sems| {
        if s.sems[k].procesos != [] {
          var x := s.sems[k];
          DesbloqueadoIn(s.(sems := s.sems[k := Semaforo(x.valor + 1, x.procesos[1..])]), x.procesos[0]);
        }
      } else {
        DesalojadoIn(s, soc);
      }
    case CpuCae(soc) => FromCpu(s, e, soc, p);
    case FinQuantum(soc, _, _) => FromCpu(s, e, soc, p);
    case Wait(soc, _, _, _) => FromCpu(s, e, soc, p);
    case EnviarIO(soc, _, _, _) => FromCpu(s, e, soc, p);
    case FinEjecucion(soc, _) => FromCpu(s, e, soc, p);
    case VariableInexistente(soc) => FromCpu(s, e, soc, p);
    case _ =>
  }

  lemma FromCpu(s: Estado, e: Evento, soc: int, p: Proceso)
    requires Posible(s, e) && Sano(s, e) && Scheduler.Paso(s, e).Some? && Vive(Scheduler.Paso(s, e).value, p)
    requires match e
             case CpuCae(x) => x == soc
             case FinQuantum(x, _, _) => x == soc
             case Wait(x, _, _, _) => x == soc
             case EnviarIO(x, _, _, _) => x == soc
             case FinEjecucion(x, _) => x == soc
             case VariableInexistente(x) => x == soc
             case _ => false
    ensures Vive(s, p) || (Entrega(s, e).Some? && Renovado(s, Entrega(s, e).value.0, Entrega(s, e).value.1, p))
  {
    hide Primero, Primera, Girada, Desalojado;
    if Desalojado(s, soc).Some? {
      DesalojadoIn(s, soc);
    }
  }

  lemma ProgCerradoIn(s: Estado, soc: int)
    ensures forall p :: Vive(ProgCerrado(s, soc), p) ==> Vive(s, p)
  {
    hide Primero, Primera, Girada, Salido;
    SalidoIn(s.nuevos, soc);
    SalidoIn(s.listos, soc);
    SalidoIn(s.block, soc);
    SalidoIn(s.exec, soc);
  }

  /** A live process has one record. */
  lemma OneRecord(s: Estado, p: Proceso, q: Proceso)
    requires Inv(s) && Vive(s, p) && Vive(s, q) && p.pcb.id == q.pcb.id
    ensures p == q
  {
    hide Junta;
    var all := s.nuevos + s.listos + s.exec + s.block + s.exit;
    JuntaConcat(s.nuevos, s.listos, IdDe);
    JuntaConcat(s.nuevos + s.listos, s.exec, IdDe);
    JuntaConcat(s.nuevos + s.listos + s.exec, s.block, IdDe);
    JuntaConcat(s.nuevos + s.listos + s.exec + s.block, s.exit, IdDe);
    assert Censo(s) + multiset{} == Junta(all, IdDe);
    assert p in all && q in all;
    var i :| 0 <= i < |all| && all[i] == p;
    var j :| 0 <= j < |all| && all[j] == q;
    UnicoId(all, i, j);
  }

  /** A process in exit is nowhere else. */
  lemma ExitIsElsewhere(s: Estado, p: Proceso, q: Proceso)
    requires Inv(s) && Vive(s, p) && q in s.exit
    ensures p.pcb.id != q.pcb.id
  {
    hide Junta;
    var live := s.nuevos + s.listos + s.exec + s.block;
    JuntaConcat(s.nuevos, s.listos, IdDe);
    JuntaConcat(s.nuevos + s.listos, s.exec, IdDe);
    JuntaConcat(s.nuevos + s.listos + s.exec, s.block, IdDe);
    assert Censo(s) + multiset{} == Junta(live, IdDe) + Junta(s.exit, IdDe);
    EnAlguna(live, p.pcb.id);
    EnAlguna(s.exit, q.pcb.id);
    assert p in live;
    assert (Censo(s) + multiset{})[p.pcb.id] <= 1;
    assert Junta(live, IdDe)[p.pcb.id] >= 1 && Junta(s.exit, IdDe)[q.pcb.id] >= 1;
  }

  /** A process that a step ends is gone from the other queues. */
  lemma EndedIsGone(s: Estado, e: Evento, p: Proceso)
    requires Inv(s) && Posible(s, e) && Sano(s, e) && Termina(s, e) && Baja(s, e).Some?
    requires Scheduler.Paso(s, e).Some? && Inv(Scheduler.Paso(s, e).value) && Vive(Scheduler.Paso(s, e).value, p)
    ensures p.pcb.id != Baja(s, e).value
  {
    hide Inv, Primera, Junta;
    var t := Scheduler.Paso(s, e).value;
    if e.ProgCierra? {
      ProgEnds(s, e.socProg);
      ExitIsElsewhere(t, p, s.exec[Primero(s.exec, PorSocket(e.socProg))]);
    } else {
      var tipo := match e case FinEjecucion(_, x) => x case VariableInexistente(_) => VAR_INEX case _ => SEM_INEX;
      var soc := match e case Wait(x, _, _, _) => x case Signal(x, _) => x case FinEjecucion(x, _) => x case VariableInexistente(x) => x case _ => 0;
      assert Terminado(s, soc, tipo) == Some(t);
      TerminadoEnds(s, soc, tipo);
      ExitIsElsewhere(t, p, t.exit[|s.exit|]);
    }
  }

  lemma TerminadoEnds(s: Estado, soc: int, tipo: int)
    requires Ocupada(s, soc) && Terminado(s, soc, tipo).Some?
    ensures var t := Terminado(s, soc, tipo).value; |t.exit| == |s.exit| + 1 && t.exit[|s.exit|].pcb.id == EnCpu(s, soc)
  {
    hide Primera, Girada;
  }

  lemma ProgEnds(s: Estado, soc: int)
    requires Primero(s.exec, PorSocket(soc)) < |s.exec|
    ensures s.exec[Primero(s.exec, PorSocket(soc))] in ProgCerrado(s, soc).exit
  {
    hide Primera, Girada, Primero;
  }

  lemma LiveIds(s: Estado, p: Proceso)
    requires Inv(s) && Vive(s, p)
    ensures 1 <= p.pcb.id <= s.contador && s.duenos[p.pcb.id] == 4
  {
    hide Junta;
    EnAlguna(s.nuevos, p.pcb.id);
    EnAlguna(s.listos, p.pcb.id);
    EnAlguna(s.exec, p.pcb.id);
    EnAlguna(s.block, p.pcb.id);
    assert p.pcb.id in Censo(s) + multiset{};
  }

  /** Segments come and go only with admissions and destructions. */
  lemma StepOwners(s: Estado, e: Evento)
    requires Posible(s, e) && Scheduler.Paso(s, e).Some? && !e.Admitir? && !e.Destruye?
    ensures Scheduler.Paso(s, e).value.duenos == s.duenos
  {
    hide Primero, Primera, PesoMin, ProgCerrado, Desbloqueado, Terminado, QuantumTerminado, CpuCaida, Bloqueado;
    match e
    case ProgCierra(soc) => ProgOwners(s, soc);
    case IoTermina(d) => DesbloqueadoOwners(s.(disps := s.disps[d := s.disps[d].(sirviendo := None)]), s.disps[d].sirviendo.value);
    case Signal(soc, k) =>
      CpuOwners(s, soc, SEM_INEX, Pcb(0, 0, 0, 0, 0, 0, 0, 0, 0, 0), false);
      if k < |s.sems| && s.sems[k].procesos != [] {
        var x := s.sems[k];
        DesbloqueadoOwners(s.(sems := s.sems[k := Semaforo(x.valor + 1, x.procesos[1..])]), x.procesos[0]);
      }
    case CpuCae(soc) => CpuOwners(s, soc, 0, Pcb(0, 0, 0, 0, 0, 0, 0, 0, 0, 0), false);
    case FinQuantum(soc, men, cierra) => CpuOwners(s, soc, 0, men, cierra);
    case Wait(soc, _, men, cierra) => CpuOwners(s, soc, SEM_INEX, men, cierra);
    case EnviarIO(soc, _, men, cierra) => CpuOwners(s, soc, 0, men, cierra);
    case FinEjecucion(soc, tipo) => CpuOwners(s, soc, tipo, Pcb(0, 0, 0, 0, 0, 0, 0, 0, 0, 0), false);
    case VariableInexistente(soc) => CpuOwners(s, soc, VAR_INEX, Pcb(0, 0, 0, 0, 0, 0, 0, 0, 0, 0), false);
    case _ =>
  }

  lemma CpuOwners(s: Estado, soc: int, tipo: int, men: Pcb, cierra: bool)
    ensures CpuCaida(s, soc).Some? ==> CpuCaida(s, soc).value.duenos == s.duenos
    ensures QuantumTerminado(s, soc, men, cierra).Some? ==> QuantumTerminado(s, soc, men, cierra).value.duenos == s.duenos
    ensures Terminado(s, soc, tipo).Some? ==> Terminado(s, soc, tipo).value.duenos == s.duenos
    ensures Bloqueado(s, soc, men, cierra).Some? ==> Bloqueado(s, soc, men, cierra).value.0.duenos == s.duenos
  {
    hide Primero, Primera;
  }

  lemma DesbloqueadoOwners(s: Estado, id: int)
    ensures Desbloqueado(s, id).duenos == s.duenos
  {
    hide Primero;
  }

  lemma ProgOwners(s: Estado, soc: int)
    ensures ProgCerrado(s, soc).duenos == s.duenos
  {
    hide Primero, Primera, Salido;
  }

  // ---- The system: kernel, memory server, and what each process has run ----

  /** What does not change: the quantum, and how the memory server works. */
  datatype Sistema = Sistema(quantum: int, mem: Memoria)

  /** The kernel, the table and the store of the memory server, the machine each process started as, what it has
      run since, and the processes of which a stay on a CPU was lost. */
  datatype Mundo = Mundo(s: Estado, t: Tabla, primeras: map<int, Maquina>, hechas: map<int, seq<Op>>, perdidos: set<int>)

  /** A step. If it admits a program, `ps` are its requests, `v` the memory server after them and `u` after its
      segments have been written. If it takes a process off its CPU, `u` is the memory server after what that CPU
      wrote, and `ops` is what it ran if it hands the block back. */
  datatype Suceso = Suceso(e: Evento, ops: seq<Op>, ps: seq<Pedido>, v: Tabla, u: Tabla)

  function Vacia(m: Maquina): Refinement.Pila {
    Refinement.Pila(Fondo, [], if IsInt32(m.pcb.pc) then m.pcb.pc else 0, false)
  }

  /** Whether the process has run without faults so far and has not ended. */
  predicate SinFallos(m: Maquina, ops: seq<Op>) {
    var r := CorrerPila(m.pcb.dirSegStack, |m.pila|, Vacia(m), ops);
    r.Some? && !r.value.fin
  }

  predicate Admisible(m: Maquina) {
    PcbFits(m.pcb) && m.pcb.dirSegStack >= 0 && IsInt32(m.pcb.dirSegStack + |m.pila|)
  }

  /** The stack segment of a process. */
  function NombrePila(p: Proceso): SegmentTable.Nombre {
    (p.pcb.id, p.pcb.dirSegStack)
  }

  /** The stack segments of the processes that can still run. */
  ghost function PilasVivas(s: Estado): set<SegmentTable.Nombre> {
    set p | p in s.nuevos + s.listos + s.exec + s.block :: NombrePila(p)
  }

  function Inicio(p: Proceso, pila: seq<byte>): Maquina {
    Maquina(p.pcb, pila, map[], false, false, 0)
  }

  /** One stay on a CPU. */
  function Estancia(quantum: int, p: Pcb, pila: seq<byte>, ops: seq<Op>): Option<Maquina> {
    match Cargada(quantum, p, pila)
    case None => None
    case Some(m) => Correr(m, ops)
  }

  /** The memory server's side of an admission. */
  ghost predicate AdmisionFiel(c: Sistema, w: Mundo, x: Suceso)
    requires x.e.Admitir?
  {
    var id := w.s.contador + 1;
    && |x.ps| == 4 && Frescos(id, x.ps, w.t.segs)
    && Atiende(c.mem, w.t, id, x.ps, x.v, x.e.resp.Some?)
    && EscribePropias(x.v, x.u, id)
    && (x.e.resp.Some? ==>
          && x.e.resp.value.dirSegStack == x.ps[3].dir && (id, x.ps[3].dir) in x.u.store
          && Admisible(Inicio(Admitida(w.s, x.e).value, x.u.store[(id, x.ps[3].dir)])))
  }

  /** The block handed back and the bytes written are those of one stay: the primitives `ops`, whatever they do, run
      from the block dispatched over the bytes the memory server held, without a fault or an end. */
  ghost predicate EntregaFiel(c: Sistema, w: Mundo, x: Suceso)
    requires Posible(w.s, x.e) && Sano(w.s, x.e)
  {
    && Entrega(w.s, x.e).Some?
    && var (id, men) := Entrega(w.s, x.e).value;
    var i := Primero(w.s.exec, PorId(id));
    && i < |w.s.exec| && id in w.primeras && id in w.hechas && NombrePila(w.s.exec[i]) in w.t.store
    && var m := Estancia(c.quantum, w.s.exec[i].pcb, w.t.store[NombrePila(w.s.exec[i])], x.ops);
    && m.Some? && !m.value.fin && PcbFits(m.value.pcb) && men == Transmitido(0, m.value.pcb)
    && x.u == w.t.(store := w.t.store[NombrePila(w.s.exec[i]) := m.value.pila])
  }

  /** What can happen: any step the kernel can handle. A CPU may be lost, and may hand back any block at any time;
      what it writes through the memory server is written to segments of the process it runs. */
  ghost predicate Fiel(c: Sistema, w: Mundo, x: Suceso) {
    && Posible(w.s, x.e) && Sano(w.s, x.e)
    && (x.e.Admitir? ==> AdmisionFiel(c, w, x))
    && (Baja(w.s, x.e).Some? ==> EscribePropias(w.t, x.u, Baja(w.s, x.e).value))
  }

  /** Each request of an admission finds a table that is quiet for the stacks of the living. */
  ghost predicate AdmisionQuieta(c: Sistema, w: Mundo, x: Suceso) {
    x.e.Admitir? ==> CadenaQuieta(c.mem, w.t.segs, w.s.contador + 1, x.ps, PilasVivas(w.s))
  }

  ghost function Avanza(c: Sistema, w: Mundo, x: Suceso): Mundo
    requires Fiel(c, w, x)
  {
    var s := match Scheduler.Paso(w.s, x.e) case Some(t) => t case None => w.s;
    if x.e.Admitir? then
      var p := Admitida(w.s, x.e);
      if p.None? then w.(s := s, t := x.u)
      else
        var id := p.value.pcb.id;
        w.(s := s, t := x.u, primeras := w.primeras[id := Inicio(p.value, x.u.store[NombrePila(p.value)])],
           hechas := w.hechas[id := []])
    else if x.e.Destruye? && w.s.exit != [] then w.(s := s, t := Sin(w.t, w.s.exit[0].pcb.id))
    else if Baja(w.s, x.e).None? then w.(s := s)
    else if EntregaFiel(c, w, x) then
      var id := Entrega(w.s, x.e).value.0;
      w.(s := s, t := x.u, hechas := w.hechas[id := w.hechas[id] + x.ops])
    else if Termina(w.s, x.e) then w.(s := s, t := x.u)
    else w.(s := s, t := x.u, perdidos := w.perdidos + {Baja(w.s, x.e).value})
  }

  /** The kernel's block and the stack bytes are those of the process running alone. */
  ghost predicate Solo(w: Mundo, p: Proceso) {
    var id := p.pcb.id;
    && id in w.primeras && id in w.hechas && NombrePila(p) in w.t.store
    && var r := Correr(w.primeras[id], w.hechas[id]);
    r.Some? && r.value.pcb == p.pcb && r.value.pila == w.t.store[NombrePila(p)]
  }

  /** The process is where the primitives it has run would have led it alone, from a proper start. */
  ghost predicate AlDia(w: Mundo, p: Proceso) {
    && Solo(w, p)
    && var m0 := w.primeras[p.pcb.id];
    var r := Correr(m0, w.hechas[p.pcb.id]).value;
    && Admisible(m0) && m0 == Maquina(m0.pcb, m0.pila, map[], false, false, 0)
    && m0.pcb.cantVar == 0 && m0.pcb.dirCont == m0.pcb.dirSegStack
    && !r.fin && PcbFits(r.pcb)
  }

  /** The memory server holds a valid table, of the owners the kernel thinks it has. */
  ghost predicate MemoriaAlDia(c: Sistema, w: Mundo) {
    Bien(c.mem, w.t) && SegmentTable.Duenos(w.t.segs) == w.s.duenos
  }

  ghost predicate TodosAlDia(c: Sistema, w: Mundo) {
    Inv(w.s) && MemoriaAlDia(c, w) && forall p :: Vive(w.s, p) && p.pcb.id !in w.perdidos ==> AlDia(w, p)
  }

  /** One more stay on a CPU: it gets through if and only if the names can be read at the dispatch and the
      longer uninterrupted run does not kill the CPU, and then it ends where that run ends. */
  lemma StayExtendsRun(quantum: int, w: Mundo, p: Proceso, ops: seq<Op>)
    requires IsInt32(quantum) && AlDia(w, p)
    ensures var (m0, done) := (w.primeras[p.pcb.id], w.hechas[p.pcb.id]);
            var n, u := Estancia(quantum, p.pcb, w.t.store[NombrePila(p)], ops), Correr(m0, done + ops);
            && (n.Some? <==> Legible(Correr(m0, done).value) && u.Some?)
            && (n.Some? ==>
                  && Igual(u.value, n.value) && SameFixedPart(p.pcb, u.value.pcb)
                  && |n.value.pila| == |w.t.store[NombrePila(p)]|
                  && (PcbFits(u.value.pcb) ==> Actualizado(p.pcb, Transmitido(0, u.value.pcb)) == u.value.pcb))
  {
    hide Correr, Cargada, Transmitido, Legible;
    var (m0, done) := (w.primeras[p.pcb.id], w.hechas[p.pcb.id]);
    var r := Correr(m0, done).value;
    CorrerLimpia(m0, done);
    CorrerConcat(m0, done, ops);
    ReloadIff(quantum, r);
    if Legible(r) {
      OneQuantum(quantum, r, ops);
    }
  }

  /** Whether the primitives take the process on from where it is, without a fault or an end, to a block that fits. */
  ghost predicate Continua(w: Mundo, id: int, ops: seq<Op>)
    requires id in w.primeras && id in w.hechas && Correr(w.primeras[id], w.hechas[id]).Some?
  {
    && Legible(Correr(w.primeras[id], w.hechas[id]).value)
    && var u := Correr(w.primeras[id], w.hechas[id] + ops);
    u.Some? && !u.value.fin && PcbFits(u.value.pcb)
  }

  ghost predicate EsEntrega(c: Sistema, w: Mundo, soc: int, ops: seq<Op>, x: Suceso) {
    x.e.FinQuantum? && x.e.soc == soc && x.ops == ops && Fiel(c, w, x) && EntregaFiel(c, w, x)
  }

  /** A busy CPU can run primitives and hand the block back if and only if they take the process on. */
  lemma HandoverIff(c: Sistema, w: Mundo, soc: int, ops: seq<Op>)
    requires IsInt32(c.quantum) && TodosAlDia(c, w) && Ocupada(w.s, soc) && EnCpu(w.s, soc) !in w.perdidos
    ensures var id := EnCpu(w.s, soc); id in w.primeras && id in w.hechas && Correr(w.primeras[id], w.hechas[id]).Some?
    ensures (exists x :: EsEntrega(c, w, soc, ops, x)) <==> Continua(w, EnCpu(w.s, soc), ops)
  {
    hide Inv, AlDia, Estancia, Transmitido, MemoriaAlDia, Legible, Correr;
    var id := EnCpu(w.s, soc);
    EnExec(w.s, Primera(w.s.cpus, PorSocCpu(soc)));
    var q := w.s.exec[Primero(w.s.exec, PorId(id))];
    assert Vive(w.s, q);
    AlDiaKnown(w, q);
    StayExtendsRun(c.quantum, w, q, ops);
    var n := Estancia(c.quantum, q.pcb, w.t.store[NombrePila(q)], ops);
    if Continua(w, id, ops) {
      var u := w.t.(store := w.t.store[NombrePila(q) := n.value.pila]);
      var x := Suceso(FinQuantum(soc, Transmitido(0, n.value.pcb), false), ops, [], w.t, u);
      assert EsEntrega(c, w, soc, ops, x);
    }
    if x :| EsEntrega(c, w, soc, ops, x) {
      assert Entrega(w.s, x.e).Some?;
    }
  }

  /** So it can whenever they are fault-free since the process started. */
  lemma HandoverPossible(c: Sistema, w: Mundo, soc: int, ops: seq<Op>) returns (x: Suceso)
    requires IsInt32(c.quantum) && TodosAlDia(c, w) && Ocupada(w.s, soc) && EnCpu(w.s, soc) !in w.perdidos
    requires var id := EnCpu(w.s, soc);
             id in w.primeras && id in w.hechas && SinFallos(w.primeras[id], w.hechas[id] + ops)
    ensures EsEntrega(c, w, soc, ops, x)
  {
    hide Inv, AlDia, EsEntrega, SinFallos, MemoriaAlDia, Continua;
    HandoverIff(c, w, soc, ops);
    var id := EnCpu(w.s, soc);
    EnExec(w.s, Primera(w.s.cpus, PorSocCpu(soc)));
    var q := w.s.exec[Primero(w.s.exec, PorId(id))];
    assert Vive(w.s, q);
    FaultFreeContinues(w, q, ops);
    x :| EsEntrega(c, w, soc, ops, x);
  }

  lemma FaultFreeContinues(w: Mundo, p: Proceso, ops: seq<Op>)
    requires AlDia(w, p) && SinFallos(w.primeras[p.pcb.id], w.hechas[p.pcb.id] + ops)
    ensures Continua(w, p.pcb.id, ops)
  {
    hide Correr, CorrerPila, Rep, Legible;
    var (m0, done) := (w.primeras[p.pcb.id], w.hechas[p.pcb.id]);
    FreshProcess(m0.pcb, m0.pila);
    CorrerPilaConcat(m0.pcb.dirSegStack, |m0.pila|, Vacia(m0), done, ops);
    RunRefines(m0, Vacia(m0), done);
    RunRefines(m0, Vacia(m0), done + ops);
    IndexCoherent(Correr(m0, done).value, CorrerPila(m0.pcb.dirSegStack, |m0.pila|, Vacia(m0), done).value);
    RepKnown(Correr(m0, done + ops).value, CorrerPila(m0.pcb.dirSegStack, |m0.pila|, Vacia(m0), done + ops).value);
  }

  lemma RepKnown(m: Maquina, a: Refinement.Pila)
    requires Rep(m, a) && !a.fin
    ensures !m.fin && PcbFits(m.pcb)
  {
    hide Image, Diccionario;
  }

  lemma AlDiaKnown(w: Mundo, p: Proceso)
    requires AlDia(w, p)
    ensures p.pcb.id in w.primeras && p.pcb.id in w.hechas && NombrePila(p) in w.t.store
    ensures Correr(w.primeras[p.pcb.id], w.hechas[p.pcb.id]).Some?
  {
  }

  // ---- The memory server stays in step ----

  lemma WritesKeepTable(m: Memoria, v: Tabla, u: Tabla, id: int)
    requires Bien(m, v) && EscribePropias(v, u, id)
    ensures Bien(m, u)
  {
    forall x | x in v.segs
      ensures |u.store[x.Clave()]| == x.tam
    {
      assert x.Clave() in v.store;
    }
  }

  lemma AdmissionMemory(c: Sistema, w: Mundo, x: Suceso)
    requires Inv(w.s) && MemoriaAlDia(c, w) && x.e.Admitir? && Fiel(c, w, x)
    ensures MemoriaAlDia(c, Avanza(c, w, x))
  {
    hide Inv, Bien, Atiende, Frescos, EscribePropias, SegmentTable.Duenos;
    NextIdIsFree(w.s);
    AtiendeKeeps(c.mem, w.t, w.s.contador + 1, x.ps, x.v, x.e.resp.Some?);
    WritesKeepTable(c.mem, x.v, x.u, w.s.contador + 1);
    SameSegments(x.v, x.u, w.s.contador + 1);
  }

  lemma SameSegments(v: Tabla, u: Tabla, id: int)
    requires EscribePropias(v, u, id)
    ensures u.segs == v.segs
  {
  }

  lemma CpuAdvances(c: Sistema, w: Mundo, x: Suceso)
    requires Fiel(c, w, x) && Scheduler.Paso(w.s, x.e).Some? && Baja(w.s, x.e).Some?
    ensures Scheduler.Paso(w.s, x.e) == Some(Avanza(c, w, x).s) && Avanza(c, w, x).t == x.u
  {
    hide EntregaFiel, Scheduler.Paso, EscribePropias, AdmisionFiel;
  }

  lemma CpuMemory(c: Sistema, w: Mundo, x: Suceso)
    requires MemoriaAlDia(c, w) && Fiel(c, w, x) && Scheduler.Paso(w.s, x.e).Some? && Baja(w.s, x.e).Some?
    ensures MemoriaAlDia(c, Avanza(c, w, x))
  {
    hide Bien, Avanza, Scheduler.Paso, EscribePropias, SegmentTable.Duenos;
    CpuAdvances(c, w, x);
    StepOwners(w.s, x.e);
    WritesKeepTable(c.mem, w.t, x.u, Baja(w.s, x.e).value);
    SameSegments(w.t, x.u, Baja(w.s, x.e).value);
  }

  lemma DestructionMemory(c: Sistema, w: Mundo, x: Suceso)
    requires Inv(w.s) && MemoriaAlDia(c, w) && x.e.Destruye? && Fiel(c, w, x)
    ensures w.s.exit != [] && MemoriaAlDia(c, Avanza(c, w, x))
  {
    hide Bien, Inv, SegmentTable.Duenos, SegmentTable.SinProceso;
    SomeoneLeaves(w.s);
    RefusedKeeps(c.mem, w.t, w.s.exit[0].pcb.id);
  }

  lemma StepMemory(c: Sistema, w: Mundo, x: Suceso)
    requires Inv(w.s) && MemoriaAlDia(c, w) && Fiel(c, w, x) && Scheduler.Paso(w.s, x.e).Some?
    ensures MemoriaAlDia(c, Avanza(c, w, x))
  {
    hide Bien, EntregaFiel, EscribePropias, SegmentTable.Duenos, Inv;
    if x.e.Admitir? {
      AdmissionMemory(c, w, x);
    } else if x.e.Destruye? {
      DestructionMemory(c, w, x);
    } else if Baja(w.s, x.e).Some? {
      CpuMemory(c, w, x);
    } else {
      StepOwners(w.s, x.e);
      hide Scheduler.Paso;
    }
  }

  // ---- Nobody is disturbed ----

  lemma SameWorld(w: Mundo, v: Mundo, p: Proceso)
    requires AlDia(w, p) && p.pcb.id in v.primeras && p.pcb.id in v.hechas && NombrePila(p) in v.t.store
    requires v.primeras[p.pcb.id] == w.primeras[p.pcb.id] && v.hechas[p.pcb.id] == w.hechas[p.pcb.id]
    requires v.t.store[NombrePila(p)] == w.t.store[NombrePila(p)]
    ensures AlDia(v, p)
  {
  }

  /** Quiet requests and the writes of another process leave a living stack alone. */
  lemma AdmissionSpares(c: Sistema, w: Mundo, x: Suceso, p: Proceso)
    requires Inv(w.s) && MemoriaAlDia(c, w) && x.e.Admitir? && AdmisionFiel(c, w, x) && AdmisionQuieta(c, w, x)
    requires Vive(w.s, p) && NombrePila(p) in w.t.store
    ensures p.pcb.id <= w.s.contador
    ensures NombrePila(p) in x.u.store && x.u.store[NombrePila(p)] == w.t.store[NombrePila(p)]
  {
    hide Inv, Bien, Atiende, CadenaQuieta, Frescos;
    var id, N := w.s.contador + 1, PilasVivas(w.s);
    assert NombrePila(p) in N;
    forall k | k in N
      ensures k.0 != id
    {
      var q :| q in w.s.nuevos + w.s.listos + w.s.exec + w.s.block && k == NombrePila(q);
      LiveIds(w.s, q);
    }
    LiveIds(w.s, p);
    AtiendeQuieto(c.mem, w.t, id, x.ps, x.v, x.e.resp.Some?, N);
  }

  /** The world after an admission: the requests went to the memory server and at most one process is new. */
  lemma AdmissionAdvances(c: Sistema, w: Mundo, x: Suceso)
    requires Fiel(c, w, x) && x.e.Admitir?
    ensures var v, q := Avanza(c, w, x), Admitida(w.s, x.e);
            && Scheduler.Paso(w.s, x.e) == Some(v.s) && v.t == x.u && v.perdidos == w.perdidos
            && (forall id :: id <= w.s.contador ==>
                  && (id in w.primeras ==> id in v.primeras && v.primeras[id] == w.primeras[id])
                  && (id in w.hechas ==> id in v.hechas && v.hechas[id] == w.hechas[id]))
            && (q.Some? ==>
                  && q.value.pcb.id == w.s.contador + 1 && q.value.pcb.id in v.primeras && q.value.pcb.id in v.hechas
                  && NombrePila(q.value) in v.t.store && v.hechas[q.value.pcb.id] == []
                  && v.primeras[q.value.pcb.id] == Inicio(q.value, v.t.store[NombrePila(q.value)])
                  && Admisible(v.primeras[q.value.pcb.id])
                  && q.value.pcb.cantVar == 0 && q.value.pcb.dirCont == q.value.pcb.dirSegStack)
  {
    hide Scheduler.Paso, Admisible, Atiende, Frescos, EscribePropias, Entrega;
    AdmissionGoesOn(w.s, x.e);
  }

  lemma AdmissionGoesOn(s: Estado, e: Evento)
    requires Posible(s, e) && e.Admitir?
    ensures Scheduler.Paso(s, e).Some?
  {
  }

  lemma StepAdmits(c: Sistema, w: Mundo, x: Suceso, p: Proceso)
    requires TodosAlDia(c, w) && Fiel(c, w, x) && AdmisionQuieta(c, w, x) && x.e.Admitir?
    requires Vive(Avanza(c, w, x).s, p) && p.pcb.id !in Avanza(c, w, x).perdidos
    ensures AlDia(Avanza(c, w, x), p)
  {
    hide Inv, AlDia, MemoriaAlDia, AdmisionQuieta, AdmisionFiel, Avanza, Scheduler.Paso, Admitida, Admisible, Inicio;
    var v, q := Avanza(c, w, x), Admitida(w.s, x.e);
    AdmissionAdvances(c, w, x);
    if q == Some(p) {
      StartsUpToDate(v, p);
    } else {
      OldOrRenewed(w.s, x.e, p);
      AlDiaKnown(w, p);
      AdmissionSpares(c, w, x, p);
      SameWorld(w, v, p);
    }
  }

  lemma StartsUpToDate(v: Mundo, q: Proceso)
    requires q.pcb.id in v.primeras && q.pcb.id in v.hechas && NombrePila(q) in v.t.store
    requires v.primeras[q.pcb.id] == Inicio(q, v.t.store[NombrePila(q)]) && v.hechas[q.pcb.id] == []
    requires Admisible(v.primeras[q.pcb.id]) && q.pcb.cantVar == 0 && q.pcb.dirCont == q.pcb.dirSegStack
    ensures AlDia(v, q)
  {
  }

  /** The segments that go belong to no living process. */
  lemma StepDestroys(c: Sistema, w: Mundo, x: Suceso, p: Proceso)
    requires TodosAlDia(c, w) && Fiel(c, w, x) && x.e.Destruye? && w.s.exit != []
    requires Inv(Avanza(c, w, x).s) && Vive(Avanza(c, w, x).s, p) && p.pcb.id !in Avanza(c, w, x).perdidos
    ensures AlDia(Avanza(c, w, x), p)
  {
    hide Inv, AlDia, MemoriaAlDia;
    var v := Avanza(c, w, x);
    OldOrRenewed(w.s, x.e, p);
    LiveIds(v.s, p);
    assert v.s.duenos[w.s.exit[0].pcb.id] == 0;
    AlDiaKnown(w, p);
    SameWorld(w, v, p);
  }

  /** Writes to the segments of another process leave this one alone. */
  lemma OthersWrites(w: Mundo, v: Mundo, id: int, p: Proceso)
    requires AlDia(w, p) && p.pcb.id != id && EscribePropias(w.t, v.t, id)
    requires v.primeras == w.primeras && p.pcb.id in v.hechas && v.hechas[p.pcb.id] == w.hechas[p.pcb.id]
    ensures AlDia(v, p)
  {
    hide AlDia;
    AlDiaKnown(w, p);
    SameWorld(w, v, p);
  }

  /** The process that was taken off its CPU is where its run left it; to any other its writes are those of
      another process. */
  lemma StepRenews(c: Sistema, w: Mundo, x: Suceso, p: Proceso)
    requires IsInt32(c.quantum) && TodosAlDia(c, w) && Fiel(c, w, x) && EntregaFiel(c, w, x)
    requires var v := Avanza(c, w, x);
             Inv(v.s) && Vive(v.s, p) && p.pcb.id !in v.perdidos && Scheduler.Paso(w.s, x.e) == Some(v.s)
    ensures AlDia(Avanza(c, w, x), p)
  {
    hide Inv, Scheduler.Paso, AlDia, Estancia, Actualizado, Transmitido, MemoriaAlDia, EscribePropias;
    var v := Avanza(c, w, x);
    var (id, men) := Entrega(w.s, x.e).value;
    var q := w.s.exec[Primero(w.s.exec, PorId(id))];
    OldOrRenewed(w.s, x.e, p);
    RenovadoId(w.s, id, men, p);
    if p.pcb.id != id {
      AlDiaKnown(w, p);
      OthersWrites(w, v, id, p);
    } else {
      assert Vive(w.s, q) && AlDia(w, q);
      HandedBack(w.s, x.e, q, p);
      Renews(c.quantum, w, v, q, x.ops);
    }
  }

  /** A stay that was lost, or that ended the process, disturbs nobody else. */
  lemma StepLoses(c: Sistema, w: Mundo, x: Suceso, p: Proceso)
    requires TodosAlDia(c, w) && Fiel(c, w, x) && Baja(w.s, x.e).Some? && !EntregaFiel(c, w, x)
    requires var v := Avanza(c, w, x);
             Inv(v.s) && Vive(v.s, p) && p.pcb.id !in v.perdidos && Scheduler.Paso(w.s, x.e) == Some(v.s)
    ensures AlDia(Avanza(c, w, x), p)
  {
    hide Inv, Scheduler.Paso, AlDia, MemoriaAlDia, EscribePropias, EntregaFiel;
    var v, id := Avanza(c, w, x), Baja(w.s, x.e).value;
    if Termina(w.s, x.e) {
      EndedIsGone(w.s, x.e, p);
    }
    OldOrRenewed(w.s, x.e, p);
    if Entrega(w.s, x.e).Some? {
      RenovadoId(w.s, id, Entrega(w.s, x.e).value.1, p);
    }
    AlDiaKnown(w, p);
    OthersWrites(w, v, id, p);
  }

  lemma RenovadoId(s: Estado, id: int, men: Pcb, p: Proceso)
    ensures Renovado(s, id, men, p) ==> p.pcb.id == id
  {
  }

  lemma Renews(quantum: int, w: Mundo, v: Mundo, q: Proceso, ops: seq<Op>)
    requires IsInt32(quantum) && AlDia(w, q)
    requires var n := Estancia(quantum, q.pcb, w.t.store[NombrePila(q)], ops);
             && n.Some? && !n.value.fin && PcbFits(n.value.pcb)
             && v.t.store == w.t.store[NombrePila(q) := n.value.pila]
    requires v.primeras == w.primeras && v.hechas == w.hechas[q.pcb.id := w.hechas[q.pcb.id] + ops]
    ensures var men := Transmitido(0, Estancia(quantum, q.pcb, w.t.store[NombrePila(q)], ops).value.pcb);
            AlDia(v, q.(pcb := Actualizado(q.pcb, men)))
  {
    hide Correr, Transmitido, Estancia, Actualizado, Legible;
    StayExtendsRun(quantum, w, q, ops);
  }

  /** The record of the process whose block came back is the renewed one, wherever the step put it. */
  lemma HandedBack(s: Estado, e: Evento, q: Proceso, p: Proceso)
    requires Inv(s) && Posible(s, e) && Sano(s, e) && Entrega(s, e).Some? && Scheduler.Paso(s, e).Some? && Inv(Scheduler.Paso(s, e).value)
    requires var id := Entrega(s, e).value.0;
             Primero(s.exec, PorId(id)) < |s.exec| && q == s.exec[Primero(s.exec, PorId(id))] && p.pcb.id == id
    requires Vive(Scheduler.Paso(s, e).value, p)
    ensures p == q.(pcb := Actualizado(q.pcb, Entrega(s, e).value.1))
  {
    hide Inv;
    OneRecord(Scheduler.Paso(s, e).value, p, q.(pcb := Actualizado(q.pcb, Entrega(s, e).value.1)));
  }

  /** No step disturbs any process: whoever lives after it, and has lost no stay on a CPU, is where it would be
      alone. */
  lemma StepIsolated(c: Sistema, w: Mundo, x: Suceso)
    requires IsInt32(c.quantum) && TodosAlDia(c, w) && Fiel(c, w, x) && AdmisionQuieta(c, w, x)
    ensures TodosAlDia(c, Avanza(c, w, x))
  {
    hide Inv, AlDia, Scheduler.Paso, MemoriaAlDia, AdmisionQuieta, EntregaFiel, AdmisionFiel, EscribePropias;
    var v := Avanza(c, w, x);
    StepKeeps(w.s, x.e);
    StepMemory(c, w, x);
    forall p | Vive(v.s, p) && p.pcb.id !in v.perdidos
      ensures AlDia(v, p)
    {
      if x.e.Admitir? {
        StepAdmits(c, w, x, p);
      } else if x.e.Destruye? {
        DestructionMemory(c, w, x);
        StepDestroys(c, w, x, p);
      } else if Baja(w.s, x.e).None? {
        OldOrRenewed(w.s, x.e, p);
        AlDiaKnown(w, p);
        SameWorld(w, v, p);
      } else if EntregaFiel(c, w, x) {
        StepRenews(c, w, x, p);
      } else {
        StepLoses(c, w, x, p);
      }
    }
  }

  // ---- Whole histories of the system ----

  ghost predicate Historia(c: Sistema, w: Mundo, xs: seq<Suceso>)
    decreases |xs|
  {
    xs != [] ==> Fiel(c, w, xs[0]) && Historia(c, Avanza(c, w, xs[0]), xs[1..])
  }

  /** Whether every admission of the history finds quiet tables. */
  ghost predicate Tranquila(c: Sistema, w: Mundo, xs: seq<Suceso>)
    requires Historia(c, w, xs)
    decreases |xs|
  {
    xs != [] ==> AdmisionQuieta(c, w, xs[0]) && Tranquila(c, Avanza(c, w, xs[0]), xs[1..])
  }

  ghost function Final(c: Sistema, w: Mundo, xs: seq<Suceso>): Mundo
    requires Historia(c, w, xs)
    decreases |xs|
  {
    if xs == [] then w else Final(c, Avanza(c, w, xs[0]), xs[1..])
  }

  /** Over any history whose admissions find quiet tables, whatever the processes run: the block the kernel holds of
      each live process that has lost no stay, and the bytes of its stack, are those of one uninterrupted run of
      the primitives it has executed. */
  lemma {:induction false} EachRunsAlone(c: Sistema, w: Mundo, xs: seq<Suceso>)
    requires IsInt32(c.quantum) && TodosAlDia(c, w) && Historia(c, w, xs) && Tranquila(c, w, xs)
    ensures TodosAlDia(c, Final(c, w, xs))
    decreases |xs|
  {
    hide TodosAlDia, Fiel, Avanza, AdmisionQuieta;
    if xs != [] {
      StepIsolated(c, w, xs[0]);
      EachRunsAlone(c, Avanza(c, w, xs[0]), xs[1..]);
    }
  }

  /** The kernel and an empty memory server, as they start. */
  ghost function Arranque(multiprog: nat, valores: seq<int>, disps: nat): Mundo {
    Mundo(Inicial(multiprog, valores, disps), Tabla([], map[]), map[], map[], {})
  }

  lemma StartsAlone(c: Sistema, multiprog: nat, valores: seq<int>, disps: nat)
    requires forall i :: 0 <= i < |valores| ==> valores[i] >= 0
    ensures TodosAlDia(c, Arranque(multiprog, valores, disps))
  {
    hide Inv;
    StartsIff(multiprog, valores, disps);
    assert SegmentTable.Claves([]) == {};
  }

  /** The theorem from the start of the system, for the code as it is. */
  lemma SystemIsTransparent(c: Sistema, multiprog: nat, valores: seq<int>, disps: nat, xs: seq<Suceso>)
    requires IsInt32(c.quantum) && forall i :: 0 <= i < |valores| ==> valores[i] >= 0
    requires Historia(c, Arranque(multiprog, valores, disps), xs) && Tranquila(c, Arranque(multiprog, valores, disps), xs)
    ensures var v := Final(c, Arranque(multiprog, valores, disps), xs);
            forall p :: Vive(v.s, p) && p.pcb.id !in v.perdidos ==> Solo(v, p)
  {
    hide Historia, Final, Inv, Correr, Solo, Tranquila, Arranque;
    StartsAlone(c, multiprog, valores, disps);
    EachRunsAlone(c, Arranque(multiprog, valores, disps), xs);
  }

  /** Whether every stay on a CPU is handed back as it was, or ends the process. */
  ghost predicate SinPerdidas(c: Sistema, w: Mundo, xs: seq<Suceso>)
    requires Historia(c, w, xs)
    decreases |xs|
  {
    xs != [] ==>
      && (Baja(w.s, xs[0].e).Some? ==> EntregaFiel(c, w, xs[0]) || Termina(w.s, xs[0].e))
      && SinPerdidas(c, Avanza(c, w, xs[0]), xs[1..])
  }

  /** A stay that is lost stays lost. */
  lemma {:induction false} LostStaysLost(c: Sistema, w: Mundo, xs: seq<Suceso>)
    requires Historia(c, w, xs)
    ensures w.perdidos <= Final(c, w, xs).perdidos
    decreases |xs|
  {
    hide Fiel, Scheduler.Paso, EntregaFiel, Termina;
    if xs != [] {
      StepLosesAtMost(c, w, xs[0]);
      LostStaysLost(c, Avanza(c, w, xs[0]), xs[1..]);
    }
  }

  lemma StepLosesAtMost(c: Sistema, w: Mundo, x: Suceso)
    requires Fiel(c, w, x)
    ensures w.perdidos <= Avanza(c, w, x).perdidos
    ensures Baja(w.s, x.e).Some? && !EntregaFiel(c, w, x) && !Termina(w.s, x.e) ==> Avanza(c, w, x).perdidos != {}
    ensures Baja(w.s, x.e).None? || EntregaFiel(c, w, x) || Termina(w.s, x.e) ==> Avanza(c, w, x).perdidos == w.perdidos
  {
    hide Scheduler.Paso, EntregaFiel, AdmisionFiel, EscribePropias;
  }

  /** Nobody has lost a stay if and only if every stay was handed back as it was or ended its process. */
  lemma {:induction false} NobodyLostIff(c: Sistema, w: Mundo, xs: seq<Suceso>)
    requires Historia(c, w, xs) && w.perdidos == {}
    ensures Final(c, w, xs).perdidos == {} <==> SinPerdidas(c, w, xs)
    decreases |xs|
  {
    hide Fiel, Avanza, EntregaFiel, Termina, Baja;
    if xs != [] {
      StepLosesAtMost(c, w, xs[0]);
      LostStaysLost(c, Avanza(c, w, xs[0]), xs[1..]);
      if Avanza(c, w, xs[0]).perdidos == {} {
        NobodyLostIff(c, Avanza(c, w, xs[0]), xs[1..]);
      }
    }
  }

  lemma {:induction false} CopyingIsTranquil(c: Sistema, w: Mundo, xs: seq<Suceso>)
    requires c.mem.copia && Historia(c, w, xs)
    ensures Tranquila(c, w, xs)
    decreases |xs|
  {
    hide Fiel, Avanza;
    if xs != [] {
      if xs[0].e.Admitir? {
        CopyingIsQuiet(c.mem, w.t.segs, w.s.contador + 1, xs[0].ps, PilasVivas(w.s));
      }
      CopyingIsTranquil(c, Avanza(c, w, xs[0]), xs[1..]);
    }
  }

  /** With compaction as it was meant to be, for every history. */
  lemma TransparentAsMeant(c: Sistema, multiprog: nat, valores: seq<int>, disps: nat, xs: seq<Suceso>)
    requires c.mem.copia
    requires IsInt32(c.quantum) && forall i :: 0 <= i < |valores| ==> valores[i] >= 0
    requires Historia(c, Arranque(multiprog, valores, disps), xs)
    ensures var v := Final(c, Arranque(multiprog, valores, disps), xs);
            forall p :: Vive(v.s, p) && p.pcb.id !in v.perdidos ==> Solo(v, p)
  {
    hide Historia, Final, Solo, Tranquila, Arranque, Vive;
    CopyingIsTranquil(c, Arranque(multiprog, valores, disps), xs);
    SystemIsTransparent(c, multiprog, valores, disps, xs);
  }

  /** The condition cannot be weakened: the requests of an admission leave the stacks of the living alone, in every
      run and at every point of it, if and only if they find quiet tables. */
  lemma AdmissionSparesIff(c: Sistema, w: Mundo, ps: seq<Pedido>)
    requires TodosAlDia(c, w) && Frescos(w.s.contador + 1, ps, w.t.segs)
    ensures CadenaQuieta(c.mem, w.t.segs, w.s.contador + 1, ps, PilasVivas(w.s))
      <==> SiempreIguales(c.mem, w.t, w.s.contador + 1, ps, PilasVivas(w.s))
  {
    hide Inv, Bien, CadenaQuieta, SiempreIguales, Frescos, AlDia;
    forall k | k in PilasVivas(w.s)
      ensures k.0 != w.s.contador + 1
    {
      var q :| q in w.s.nuevos + w.s.listos + w.s.exec + w.s.block && k == NombrePila(q);
      LiveIds(w.s, q);
    }
    ChainIff(c.mem, w.t, w.s.contador + 1, ps, PilasVivas(w.s));
  }
}
