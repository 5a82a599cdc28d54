/** Whole runs of the kernel: what holds in every reachable state, and what adds up along the way. */
module Runs {
  import opened Bytes
  import opened Wire
  import opened Scheduler
  import opened Invariant
  import opened Steps

  /** Whether each event is possible in the state the ones before it lead to. */
  predicate Corrida(s: Estado, evs: seq<Evento>)
    decreases evs
  {
    evs != [] ==>
      Posible(s, evs[0]) && (Paso(s, evs[0]).Some? ==> Corrida(Paso(s, evs[0]).value, evs[1..]))
  }

  function Tras(s: Estado, evs: seq<Evento>): Option<Estado>
    requires Corrida(s, evs)
    decreases evs
  {
    if evs == [] then Some(s)
    else
      match Paso(s, evs[0])
      case None => None
      case Some(t) => Tras(t, evs[1..])
  }

  /** The kernel starts inside the invariant exactly when no user semaphore starts below zero. */
  lemma StartsIff(multiprog: nat, valores: seq<int>, disps: nat)
    ensures Inv(Inicial(multiprog, valores, disps)) <==> forall i :: 0 <= i < |valores| ==> valores[i] >= 0
  {
    var s := Inicial(multiprog, valores, disps);
    SinEsperas(s.sems);
    SinPedidos(s.disps);
    assert Censo(s) + multiset{} == multiset{};
    assert CpusEnOrden(s.exec, s.cpus) && ContadoresExactos(s) && Junta(s.block, IdDe) == multiset{};
    hide Junta, CpusEnOrden, ContadoresExactos, Censo;
    assert forall i :: 0 <= i < |valores| ==> s.sems[i] == Semaforo(valores[i], []);
  }

  lemma {:induction false} SinEsperas(sems: seq<Semaforo>)
    requires forall k :: 0 <= k < |sems| ==> sems[k].procesos == []
    ensures Junta(sems, EsperaDe) == multiset{}
    decreases |sems|
  {
    if sems != [] {
      SinEsperas(sems[..|sems| - 1]);
    }
  }

  lemma {:induction false} SinPedidos(disps: seq<Dispositivo>)
    requires forall k :: 0 <= k < |disps| ==> disps[k] == Dispositivo([], 0, None)
    ensures Junta(disps, ServidoDe) == multiset{}
    decreases |disps|
  {
    if disps != [] {
      SinPedidos(disps[..|disps| - 1]);
    }
  }

  /** Whether the kernel can handle every step of the run. */
  predicate TodoSano(s: Estado, evs: seq<Evento>)
    requires Corrida(s, evs)
    decreases evs
  {
    evs != [] ==> Sano(s, evs[0]) && (Paso(s, evs[0]).Some? ==> TodoSano(Paso(s, evs[0]).value, evs[1..]))
  }

  lemma {:induction false} RunKeeps(s: Estado, evs: seq<Evento>)
    requires Inv(s) && Corrida(s, evs)
    ensures Tras(s, evs).Some? <==> TodoSano(s, evs)
    ensures Tras(s, evs).Some? ==> Inv(Tras(s, evs).value)
    decreases evs
  {
    hide Inv, Paso, Posible, Sano;
    if evs != [] {
      StepKeeps(s, evs[0]);
      if Sano(s, evs[0]) {
        RunKeeps(Paso(s, evs[0]).value, evs[1..]);
      }
    }
  }

  /** A run of the kernel follows no null pointer if and only if it can handle every report in it, and then it
      takes no ERROR branch and every state on the way satisfies the invariant. */
  lemma Reachable(multiprog: nat, valores: seq<int>, disps: nat, evs: seq<Evento>)
    requires forall i :: 0 <= i < |valores| ==> valores[i] >= 0
    requires Corrida(Inicial(multiprog, valores, disps), evs)
    ensures var s := Inicial(multiprog, valores, disps);
            && (Tras(s, evs).Some? <==> TodoSano(s, evs))
            && (Tras(s, evs).Some? ==> Tras(s, evs).value.errores == 0 && Inv(Tras(s, evs).value))
  {
    hide Corrida, Tras, Inicial, TodoSano;
    StartsIff(multiprog, valores, disps);
    RunKeeps(Inicial(multiprog, valores, disps), evs);
  }

  // ---- A run to a busy CPU, and from there to a null pointer ----

  lemma UnPaso(s: Estado, e: Evento)
    requires Posible(s, e)
    ensures Corrida(s, [e]) && Tras(s, [e]) == Paso(s, e)
  {
    hide Paso, Posible;
    assert [e][1..] == [];
  }

  /** One run after another is a run of their concatenation. */
  lemma {:induction false} TrasConcat(s: Estado, evs: seq<Evento>, xs: seq<Evento>)
    requires Corrida(s, evs) && Tras(s, evs).Some? && Corrida(Tras(s, evs).value, xs)
    ensures Corrida(s, evs + xs) && Tras(s, evs + xs) == Tras(Tras(s, evs).value, xs)
    decreases evs
  {
    hide Paso, Posible;
    if evs == [] {
      assert evs + xs == xs;
    } else {
      assert (evs + xs)[1..] == evs[1..] + xs;
      TrasConcat(Paso(s, evs[0]).value, evs[1..], xs);
    }
  }

  lemma OneMoreStep(s: Estado, evs: seq<Evento>, e: Evento)
    requires Corrida(s, evs) && Tras(s, evs).Some? && Posible(Tras(s, evs).value, e)
    ensures Corrida(s, evs + [e]) && Tras(s, evs + [e]) == Paso(Tras(s, evs).value, e)
  {
    hide Paso, Posible;
    UnPaso(Tras(s, evs).value, e);
    TrasConcat(s, evs, [e]);
  }

  /** A program is admitted, a CPU connects, and the program is dispatched on it. */
  function HastaLaCpu(prog: int, cpu: int, pcb: Pcb): seq<Evento> {
    [Admitir(prog, 0, Some(pcb)), CpuNueva(cpu), TomaNuevo, TomaCupo, NuevoAListo, TomaListo, TomaCpu, Despacha]
  }

  lemma StepThen(s: Estado, evs: seq<Evento>, t: Estado)
    requires evs != [] && Posible(s, evs[0]) && Paso(s, evs[0]) == Some(t) && Corrida(t, evs[1..])
    ensures Corrida(s, evs) && Tras(s, evs) == Tras(t, evs[1..])
  {
    hide Paso, Posible;
  }

  /** The one new process goes to ready. */
  lemma GoesReady(s: Estado, p: Proceso)
    requires s.nuevos == [p] && p.peso == 0
    ensures NuevoPasado(s) == AListos(s.(newReady := Esperando, nuevos := []), p)
  {
    assert PesoMin([p]) == 0 && Primero([p], PorPeso(0)) == 0;
    assert Girada([p], 0) == [];
  }

  /** The one ready process goes to the one free CPU. */
  lemma GoesToCpu(s: Estado, p: Proceso, c: Cpu)
    requires s.listos == [p] && s.cpus == [c] && c.idExec == 0
    ensures Despachado(s).Some? && Despachado(s).value.cpus == [Cpu(c.socCpu, p.socket, p.pcb.id)]
    ensures Despachado(s).value.sems == s.sems && Despachado(s).value.disps == s.disps
  {
    assert Primera(s.cpus, Libre) == 0;
    assert SinCpu(s.cpus, 0) == [];
  }

  lemma TheOnlyCpu(s: Estado, c: Cpu)
    requires s.cpus == [c] && c.idExec != 0
    ensures Ocupada(s, c.socCpu)
  {
    assert Primera(s.cpus, PorSocCpu(c.socCpu)) == 0;
  }

  /** With a slot to give, that run is possible, and leaves the CPU busy. */
  lemma SomeoneRuns(multiprog: nat, valores: seq<int>, disps: nat, prog: int, cpu: int, pcb: Pcb)
    requires multiprog > 0 && prog > 0
    ensures var s, evs := Inicial(multiprog, valores, disps), HastaLaCpu(prog, cpu, pcb);
            && Corrida(s, evs) && Tras(s, evs).Some? && Ocupada(Tras(s, evs).value, cpu)
            && |Tras(s, evs).value.sems| == |valores| && |Tras(s, evs).value.disps| == disps
  {
    hide NuevoPasado, Despachado, Ocupada, Primera, Primero, Corrida, Tras, ALaCpu;
    var s, evs := Inicial(multiprog, valores, disps), HastaLaCpu(prog, cpu, pcb);
    var s1 := Admitido(s, prog, 0, Some(pcb));
    var s2 := s1.(cpus := s1.cpus + [Cpu(cpu, 0, 0)], cantLibres := s1.cantLibres + 1);
    assert s2.nuevos == [s2.nuevos[0]] && s2.cpus == [Cpu(cpu, 0, 0)];
    var p := s2.nuevos[0];
    Dispatched(s2, p, Cpu(cpu, 0, 0));
    HastaEs(prog, cpu, pcb);
    StepThen(s1, evs[1..], s2);
    StepThen(s, evs, s1);
  }

  lemma HastaEs(prog: int, cpu: int, pcb: Pcb)
    ensures var evs := HastaLaCpu(prog, cpu, pcb);
            evs == [Admitir(prog, 0, Some(pcb)), CpuNueva(cpu)] + evs[2..] && evs[2..] == evs[1..][1..] == ALaCpu()
  {
  }

  function ALaCpu(): seq<Evento> {
    [TomaNuevo, TomaCupo, NuevoAListo, TomaListo, TomaCpu, Despacha]
  }

  lemma Dispatched(s: Estado, p: Proceso, c: Cpu)
    requires s.nuevos == [p] && p.peso == 0 && p.pcb.id != 0 && s.cpus == [c] && c.idExec == 0 && s.listos == []
    requires s.newReady == s.readyExec == Esperando
    requires s.cantNew > 0 && s.cantMultiprog > 0 && s.cantLibres > 0
    ensures Corrida(s, ALaCpu()) && Tras(s, ALaCpu()).Some?
    ensures var t := Tras(s, ALaCpu()).value; Ocupada(t, c.socCpu) && t.sems == s.sems && t.disps == s.disps
  {
    hide NuevoPasado, Despachado, Ocupada, Corrida, Tras;
    var s3 := s.(newReady := ConUno, cantNew := s.cantNew - 1);
    var s4 := s3.(newReady := ConDos, cantMultiprog := s3.cantMultiprog - 1);
    var s5 := NuevoPasado(s4);
    GoesReady(s4, p);
    assert s5.listos == [p];
    ReadyDispatched(s5, p, c);
    assert ALaCpu()[1..][1..] == [NuevoAListo] + ALaCpu()[3..];
    assert ALaCpu()[1..][1..][1..] == ALaCpu()[3..];
    StepThen(s4, ALaCpu()[1..][1..], s5);
    StepThen(s3, ALaCpu()[1..], s4);
    StepThen(s, ALaCpu(), s3);
  }

  lemma ReadyDispatched(s: Estado, p: Proceso, c: Cpu)
    requires s.listos == [p] && p.pcb.id != 0 && s.cpus == [c] && c.idExec == 0
    requires s.readyExec == Esperando && s.cantReady > 0 && s.cantLibres > 0
    ensures var evs := ALaCpu()[3..];
            && Corrida(s, evs) && Tras(s, evs).Some?
            && var t := Tras(s, evs).value;
            Ocupada(t, c.socCpu) && t.sems == s.sems && t.disps == s.disps
  {
    hide Despachado, Ocupada, Corrida, Tras;
    var s6 := s.(readyExec := ConUno, cantReady := s.cantReady - 1);
    var s7 := s6.(readyExec := ConDos, cantLibres := s6.cantLibres - 1);
    GoesToCpu(s7, p, c);
    var s8 := Despachado(s7).value;
    TheOnlyCpu(s8, Cpu(c.socCpu, p.socket, p.pcb.id));
    ThreeSteps(s, s6, s7, s8);
  }

  lemma ThreeSteps(s: Estado, s1: Estado, s2: Estado, s3: Estado)
    requires Posible(s, TomaListo) && Paso(s, TomaListo) == Some(s1)
    requires Posible(s1, TomaCpu) && Paso(s1, TomaCpu) == Some(s2)
    requires Posible(s2, Despacha) && Paso(s2, Despacha) == Some(s3)
    ensures var evs := ALaCpu()[3..]; Corrida(s, evs) && Tras(s, evs) == Some(s3)
  {
    hide Paso, Posible;
    var evs := ALaCpu()[3..];
    assert evs[1..] == [TomaCpu, Despacha] && evs[1..][1..] == [Despacha];
    UnPaso(s2, Despacha);
    StepThen(s1, evs[1..], s2);
    StepThen(s, evs, s1);
  }

  /** From the start to a null pointer, three ways: the program asks for a device that is not configured; it signals a
      semaphore that does not exist and its CPU then reports the end of the quantum; it calls with a result on a
      full stack and its CPU reports the fault twice. */
  lemma KernelDiesFromStart(multiprog: nat, valores: seq<int>, disps: nat, prog: int, cpu: int, pcb: Pcb, men: Pcb, cierra: bool)
    requires multiprog > 0 && prog > 0 && forall i :: 0 <= i < |valores| ==> valores[i] >= 0
    ensures var s, evs := Inicial(multiprog, valores, disps), HastaLaCpu(prog, cpu, pcb);
            && MuereTras(s, evs + [EnviarIO(cpu, disps, men, cierra)])
            && MuereTras(s, evs + [Signal(cpu, |valores|)] + [FinQuantum(cpu, men, cierra)])
            && MuereTras(s, evs + [FinEjecucion(cpu, SEGMEN_FAULT)] + [FinEjecucion(cpu, SEGMEN_FAULT)])
  {
    hide Inv, Corrida, Tras, Inicial, HastaLaCpu, QuantumTerminado, Terminado, Enviado, Senalado;
    var s, evs := Inicial(multiprog, valores, disps), HastaLaCpu(prog, cpu, pcb);
    SomeoneRuns(multiprog, valores, disps, prog, cpu, pcb);
    Reachable(multiprog, valores, disps, evs);
    var t := Tras(s, evs).value;
    KernelDies(t, cpu, |valores|, disps, men, cierra);
    OneMoreStep(s, evs, EnviarIO(cpu, disps, men, cierra));
    OneMoreStep(s, evs, Signal(cpu, |valores|));
    OneMoreStep(s, evs + [Signal(cpu, |valores|)], FinQuantum(cpu, men, cierra));
    OneMoreStep(s, evs, FinEjecucion(cpu, SEGMEN_FAULT));
    OneMoreStep(s, evs + [FinEjecucion(cpu, SEGMEN_FAULT)], FinEjecucion(cpu, SEGMEN_FAULT));
  }

  predicate MuereTras(s: Estado, evs: seq<Evento>) {
    Corrida(s, evs) && Tras(s, evs).None?
  }

  // ---- What the invariant says, entry by entry ----

  predicate Ejecuta(c: Cpu, p: Proceso) {
    c.idExec == p.pcb.id && c.socProg == p.socket
  }

  /** Each busy CPU has its process in the exec queue and each process there has its CPU, with the same
      connection; neither side has a process twice. */
  lemma ExecMatchesCpus(s: Estado)
    requires Inv(s)
    ensures forall c :: c in s.cpus && c.idExec != 0 ==> exists p :: p in s.exec && Ejecuta(c, p)
    ensures forall p :: p in s.exec ==> exists c :: c in s.cpus && Ejecuta(c, p)
    ensures forall i, j :: 0 <= i < j < |s.exec| ==> s.exec[i].pcb.id != s.exec[j].pcb.id
    ensures forall c, d :: 0 <= c < d < |s.cpus| && s.cpus[c].idExec != 0 ==> s.cpus[c].idExec != s.cpus[d].idExec
  {
    hide Junta, Inv, Ejecuta;
    forall c | c in s.cpus && c.idExec != 0
      ensures exists p :: p in s.exec && Ejecuta(c, p)
    {
      ProcesoDeCpu(s, c);
    }
    forall p | p in s.exec
      ensures exists c :: c in s.cpus && Ejecuta(c, p)
    {
      CpuDeProceso(s, p);
    }
    forall i, j | 0 <= i < j < |s.exec|
      ensures s.exec[i].pcb.id != s.exec[j].pcb.id
    {
      ExecUnico(s, i, j);
    }
    forall c, d | 0 <= c < d < |s.cpus| && s.cpus[c].idExec != 0
      ensures s.cpus[c].idExec != s.cpus[d].idExec
    {
      CpusUnicas(s, c, d);
    }
  }

  lemma ProcesoDeCpu(s: Estado, c: Cpu)
    requires Inv(s) && c in s.cpus && c.idExec != 0
    ensures exists p :: p in s.exec && Ejecuta(c, p)
  {
    hide Junta, Inv;
    var k :| 0 <= k < |s.cpus| && s.cpus[k] == c;
    EnExec(s, k);
    assert s.exec[Primero(s.exec, PorId(c.idExec))] in s.exec;
  }

  lemma CpuDeProceso(s: Estado, p: Proceso)
    requires Inv(s) && p in s.exec
    ensures exists c :: c in s.cpus && Ejecuta(c, p)
  {
    hide Junta;
    var i :| 0 <= i < |s.exec| && s.exec[i] == p;
    var par := (p.pcb.id, p.socket);
    JuntaQuita(s.exec, i, ParDe);
    assert par in ParDe(p);
    JuntaBusca(s.cpus, OcupaDe, par);
    var c :| 0 <= c < |s.cpus| && par in OcupaDe(s.cpus[c]);
    assert s.cpus[c] in s.cpus && Ejecuta(s.cpus[c], p);
  }

  lemma ExecUnico(s: Estado, i: nat, j: nat)
    requires Inv(s) && i < j < |s.exec|
    ensures s.exec[i].pcb.id != s.exec[j].pcb.id
  {
    hide Junta;
    assert (Censo(s) + multiset{})[s.exec[i].pcb.id] <= 1;
    if s.exec[i].pcb.id == s.exec[j].pcb.id {
      UnicoId(s.exec, i, j);
    }
  }

  lemma {:induction false} PairsBelowIds(q: seq<Proceso>, par: (int, int))
    ensures Junta(q, ParDe)[par] <= Junta(q, IdDe)[par.0]
    decreases |q|
  {
    if q != [] {
      PairsBelowIds(q[..|q| - 1], par);
    }
  }

  /** Two busy CPUs with one process would be two entries of the exec queue. */
  lemma CpusUnicas(s: Estado, c: nat, d: nat)
    requires Inv(s) && c < d < |s.cpus| && s.cpus[c].idExec != 0
    ensures s.cpus[c].idExec != s.cpus[d].idExec
  {
    hide Junta, Primero;
    var par := (s.cpus[c].idExec, s.cpus[c].socProg);
    EnExec(s, c);
    JuntaDos(s.cpus, c, d, OcupaDe);
    PairsBelowIds(s.exec, par);
    assert (Censo(s) + multiset{})[par.0] <= 1;
    assert OcupaDe(s.cpus[c]) == multiset{par};
    if s.cpus[c].idExec == s.cpus[d].idExec {
      EnExec(s, d);
    }
  }

  predicate EnSem(sems: seq<Semaforo>, k: int, id: int) {
    0 <= k < |sems| && id in EsperaDe(sems[k])
  }

  predicate EnDisp(disps: seq<Dispositivo>, k: int, id: int) {
    0 <= k < |disps| && id in ServidoDe(disps[k])
  }

  lemma OneSem(sems: seq<Semaforo>, id: int)
    requires Junta(sems, EsperaDe)[id] <= 1
    ensures id in Junta(sems, EsperaDe) <==> exists k :: EnSem(sems, k, id)
    ensures forall k, j :: EnSem(sems, k, id) && EnSem(sems, j, id) ==> k == j
  {
    hide Junta;
    if id in Junta(sems, EsperaDe) {
      JuntaBusca(sems, EsperaDe, id);
      var i :| 0 <= i < |sems| && id in EsperaDe(sems[i]);
      assert EnSem(sems, i, id);
    }
    if k :| EnSem(sems, k, id) {
      JuntaQuita(sems, k, EsperaDe);
    }
    forall k, j | EnSem(sems, k, id) && EnSem(sems, j, id)
      ensures k == j
    {
      if k < j {
        JuntaDos(sems, k, j, EsperaDe);
      }
      if j < k {
        JuntaDos(sems, j, k, EsperaDe);
      }
    }
  }

  lemma OneDisp(disps: seq<Dispositivo>, id: int)
    requires Junta(disps, ServidoDe)[id] <= 1
    ensures id in Junta(disps, ServidoDe) <==> exists k :: EnDisp(disps, k, id)
    ensures forall k, j :: EnDisp(disps, k, id) && EnDisp(disps, j, id) ==> k == j
  {
    hide Junta, ServidoDe;
    if id in Junta(disps, ServidoDe) {
      JuntaBusca(disps, ServidoDe, id);
      var i :| 0 <= i < |disps| && id in ServidoDe(disps[i]);
      assert EnDisp(disps, i, id);
    }
    if k :| EnDisp(disps, k, id) {
      JuntaQuita(disps, k, ServidoDe);
    }
    forall k, j | EnDisp(disps, k, id) && EnDisp(disps, j, id)
      ensures k == j
    {
      if k < j {
        JuntaDos(disps, k, j, ServidoDe);
      }
      if j < k {
        JuntaDos(disps, j, k, ServidoDe);
      }
    }
  }

  /** Each blocked process waits for one thing, one semaphore or one device (queued there or being served),
      and whoever waits for something is blocked. */
  lemma BlockedInOneLine(s: Estado, id: int)
    requires Inv(s)
    ensures (exists p :: p in s.block && p.pcb.id == id)
       <==> (exists k :: EnSem(s.sems, k, id)) || (exists k :: EnDisp(s.disps, k, id))
    ensures forall k, j :: EnSem(s.sems, k, id) ==> !EnDisp(s.disps, j, id)
    ensures forall k, j :: EnSem(s.sems, k, id) && EnSem(s.sems, j, id) ==> k == j
    ensures forall k, j :: EnDisp(s.disps, k, id) && EnDisp(s.disps, j, id) ==> k == j
  {
    hide Junta, EnSem, EnDisp;
    EnAlguna(s.block, id);
    assert (Censo(s) + multiset{})[id] <= 1;
    assert (Junta(s.sems, EsperaDe) + Junta(s.disps, ServidoDe))[id] <= 1;
    OneSem(s.sems, id);
    OneDisp(s.disps, id);
  }

  /** The ids that own segments in the memory server are exactly those in the five queues, four segments each. */
  lemma OwnersAreLive(s: Estado, id: int)
    requires Inv(s)
    ensures id in s.duenos
       <==> exists p :: (p in s.nuevos || p in s.listos || p in s.exec || p in s.block || p in s.exit) && p.pcb.id == id
    ensures id in s.duenos ==> s.duenos[id] == 4
  {
    hide Junta;
    var censo := Censo(s) + multiset{};
    assert s.duenos[id] == 4 * censo[id] && censo[id] <= 1;
    EnAlguna(s.nuevos, id);
    EnAlguna(s.listos, id);
    EnAlguna(s.exec, id);
    EnAlguna(s.block, id);
    EnAlguna(s.exit, id);
  }

  lemma EnAlguna(q: seq<Proceso>, id: int)
    ensures id in Junta(q, IdDe) <==> exists p :: p in q && p.pcb.id == id
  {
    hide Junta;
    if id in Junta(q, IdDe) {
      JuntaBusca(q, IdDe, id);
      var i :| 0 <= i < |q| && id in IdDe(q[i]);
      assert q[i] in q;
    }
    if exists p :: p in q && p.pcb.id == id {
      var p :| p in q && p.pcb.id == id;
      var i :| 0 <= i < |q| && q[i] == p;
      JuntaQuita(q, i, IdDe);
    }
  }

  // ---- The value of a user semaphore ----

  /** What an event does to the value of semaphore `k`. */
  function Delta(e: Evento, k: nat): int {
    match e
    case Wait(_, j, _, _) => if j == k then -1 else 0
    case Signal(_, j) => if j == k then 1 else 0
    case _ => 0
  }

  function Saldo(evs: seq<Evento>, k: nat): int {
    if evs == [] then 0 else Delta(evs[0], k) + Saldo(evs[1..], k)
  }

  lemma ProgQueuesOnly(s: Estado, soc: int)
    ensures ProgCerrado(s, soc).sems == s.sems
  {
    hide Primero, Primera, Salido, ASalidaSi;
  }

  lemma QueuesOnly(s: Estado, soc: int, tipo: int, men: Pcb, cierra: bool)
    ensures CpuCaida(s, soc).Some? ==> CpuCaida(s, soc).value.sems == s.sems
    ensures QuantumTerminado(s, soc, men, cierra).Some? ==> QuantumTerminado(s, soc, men, cierra).value.sems == s.sems
    ensures Terminado(s, soc, tipo).Some? ==> Terminado(s, soc, tipo).value.sems == s.sems
  {
    hide Primero, Primera;
  }

  lemma WaitValue(s: Estado, soc: int, j: nat, men: Pcb, cierra: bool, k: nat)
    requires k < |s.sems| && Esperado(s, soc, j, men, cierra).Some?
    ensures var t := Esperado(s, soc, j, men, cierra).value;
            |t.sems| == |s.sems| && t.sems[k].valor == s.sems[k].valor - (if j == k then 1 else 0)
  {
    hide Bloqueado, Terminado;
    QueuesOnly(s, soc, SEM_INEX, men, cierra);
  }

  lemma SignalValue(s: Estado, soc: int, j: nat, k: nat)
    requires k < |s.sems| && Senalado(s, soc, j).Some?
    ensures var t := Senalado(s, soc, j).value;
            |t.sems| == |s.sems| && t.sems[k].valor == s.sems[k].valor + (if j == k then 1 else 0)
  {
    hide Terminado, Primero;
    QueuesOnly(s, soc, SEM_INEX, Pcb(0, 0, 0, 0, 0, 0, 0, 0, 0, 0), false);
  }

  lemma DeviceValue(s: Estado, soc: int, d: nat, men: Pcb, cierra: bool)
    requires Enviado(s, soc, d, men, cierra).Some?
    ensures Enviado(s, soc, d, men, cierra).value.sems == s.sems
  {
    hide Bloqueado, Primera;
    BloqueadoKeepsLines(s, soc, men, cierra);
  }

  lemma StepValue(s: Estado, e: Evento, k: nat)
    requires Posible(s, e) && k < |s.sems| && Paso(s, e).Some?
    ensures |Paso(s, e).value.sems| == |s.sems| && Paso(s, e).value.sems[k].valor == s.sems[k].valor + Delta(e, k)
  {
    hide Primero, Primera, PesoMin, ProgCerrado, CpuCaida, QuantumTerminado, Terminado, Bloqueado;
    hide Esperado, Senalado, Enviado;
    var nada := Pcb(0, 0, 0, 0, 0, 0, 0, 0, 0, 0);
    match e
    case ProgCierra(soc) => ProgQueuesOnly(s, soc);
    case CpuCae(soc) => QueuesOnly(s, soc, 0, nada, false);
    case FinQuantum(soc, men, cierra) => QueuesOnly(s, soc, 0, men, cierra);
    case FinEjecucion(soc, tipo) => QueuesOnly(s, soc, tipo, nada, false);
    case VariableInexistente(soc) => QueuesOnly(s, soc, VAR_INEX, nada, false);
    case Wait(soc, j, men, cierra) => WaitValue(s, soc, j, men, cierra, k);
    case Signal(soc, j) => SignalValue(s, soc, j, k);
    case EnviarIO(soc, d, men, cierra) => DeviceValue(s, soc, d, men, cierra);
    case _ =>
  }

  /** Over any run the value of a semaphore is its initial value plus the signals minus the waits, and
      with an initial value that is not negative as many processes wait on it as it is below zero. */
  lemma {:induction false} ValueOverRuns(s: Estado, evs: seq<Evento>, k: nat)
    requires Inv(s) && Corrida(s, evs) && k < |s.sems|
    ensures Tras(s, evs).Some? ==>
      var x := Tras(s, evs).value;
      && |x.sems| == |s.sems|
      && x.sems[k].valor == s.sems[k].valor + Saldo(evs, k)
      && |x.sems[k].procesos| == Max(0, -(s.sems[k].valor + Saldo(evs, k)))
    decreases evs
  {
    hide Junta, Paso, Posible, Delta, Sano;
    if evs != [] {
      StepKeeps(s, evs[0]);
      if Sano(s, evs[0]) {
        StepValue(s, evs[0], k);
        ValueOverRuns(Paso(s, evs[0]).value, evs[1..], k);
      }
    }
  }

  // ---- The degree of multiprogramming ----

  /** Free slots, occupied slots and the one that `manejador_new_ready` has taken but not filled yet. */
  function Grado(s: Estado): nat {
    s.cantMultiprog + Uno(s.newReady == ConDos) + CantProgs(s)
  }

  lemma DesalojadoDegree(s: Estado, soc: int)
    requires Desalojado(s, soc).Some?
    ensures var s1 := Desalojado(s, soc).value.0; Grado(s1) == Grado(s) - 1 && s1.newReady == s.newReady
  {
  }

  lemma DesbloqueadoDegree(s: Estado, id: int)
    ensures Desbloqueado(s, id).errores == s.errores ==> Grado(Desbloqueado(s, id)) == Grado(s)
  {
  }

  lemma ProgDegree(s: Estado, soc: int)
    requires Posible(s, ProgCierra(soc))
    ensures Grado(ProgCerrado(s, soc)) == Grado(s)
  {
    hide Primera;
    NoneLeaves(s.nuevos, soc);
    NoneLeaves(s.listos, soc);
    NoneLeaves(s.block, soc);
  }

  lemma TerminadoDegree(s: Estado, soc: int, tipo: int)
    ensures Terminado(s, soc, tipo).Some? ==> Grado(Terminado(s, soc, tipo).value) == Grado(s)
  {
    hide Desalojado;
    if Desalojado(s, soc).Some? {
      DesalojadoDegree(s, soc);
    }
  }

  lemma QuantumDegree(s: Estado, soc: int, men: Pcb, cierra: bool)
    ensures QuantumTerminado(s, soc, men, cierra).Some? ==> Grado(QuantumTerminado(s, soc, men, cierra).value) == Grado(s)
    ensures CpuCaida(s, soc).Some? ==> Grado(CpuCaida(s, soc).value) == Grado(s)
  {
    hide Desalojado;
    if Desalojado(s, soc).Some? {
      DesalojadoDegree(s, soc);
    }
  }

  lemma BloqueadoDegree(s: Estado, soc: int, men: Pcb, cierra: bool)
    ensures Bloqueado(s, soc, men, cierra).Some? ==> Grado(Bloqueado(s, soc, men, cierra).value.0) == Grado(s)
  {
    hide Desalojado;
    if Desalojado(s, soc).Some? {
      DesalojadoDegree(s, soc);
    }
  }

  lemma StepDegreeRest(s: Estado, e: Evento)
    requires Posible(s, e) && Paso(s, e).Some? && Paso(s, e).value.errores == s.errores
    requires !e.CambiarMultiprog?
    ensures Grado(Paso(s, e).value) == Grado(s)
  {
    hide Primero, Primera, PesoMin, Desbloqueado, ProgCerrado, Terminado, QuantumTerminado, CpuCaida, Bloqueado;
    match e
    case ProgCierra(soc) => ProgDegree(s, soc);
    case IoTermina(d) =>
      DesbloqueadoDegree(s.(disps := s.disps[d := s.disps[d].(sirviendo := None)]), s.disps[d].sirviendo.value);
    case Signal(soc, k) =>
      TerminadoDegree(s, soc, SEM_INEX);
      if k < |s.sems| && s.sems[k].procesos != [] {
        var x := s.sems[k];
        DesbloqueadoDegree(s.(sems := s.sems[k := Semaforo(x.valor + 1, x.procesos[1..])]), x.procesos[0]);
      }
    case CpuCae(soc) => QuantumDegree(s, soc, Pcb(0, 0, 0, 0, 0, 0, 0, 0, 0, 0), false);
    case FinQuantum(soc, men, cierra) => QuantumDegree(s, soc, men, cierra);
    case Wait(soc, k, men, cierra) =>
      TerminadoDegree(s, soc, SEM_INEX);
      BloqueadoDegree(s, soc, men, cierra);
    case EnviarIO(soc, _, men, cierra) => BloqueadoDegree(s, soc, men, cierra);
    case FinEjecucion(soc, tipo) => TerminadoDegree(s, soc, tipo);
    case VariableInexistente(soc) => TerminadoDegree(s, soc, VAR_INEX);
    case _ =>
  }

  /** Only the console changes the degree of multiprogramming. */
  lemma StepDegree(s: Estado, e: Evento)
    requires Inv(s) && Posible(s, e) && Sano(s, e) && !e.CambiarMultiprog?
    ensures Paso(s, e).Some? && Grado(Paso(s, e).value) == Grado(s)
  {
    hide Paso, Posible, Sano, EnUnaCola, CuatroSegmentos, CpusEnOrden, ContadoresExactos, Repartidos, Grado;
    StepKeeps(s, e);
    StepDegreeRest(s, e);
  }

  /** `cambiar_multiprog` makes the degree exactly what was asked for if and only if no more processes than
      that hold a slot and no slot is in the hands of `manejador_new_ready`, whose token the count overlooks;
      a request below the processes that hold a slot changes nothing. */
  lemma ChangeDegreeIff(s: Estado, n: int)
    ensures Grado(MultiprogCambiado(s, n)) == n <==> n >= CantProgs(s) && s.newReady != ConDos
    ensures n >= CantProgs(s) ==> MultiprogCambiado(s, n).cantMultiprog + CantProgs(s) == n
    ensures n < CantProgs(s) ==> MultiprogCambiado(s, n) == s
  {
  }

  /** The degree the console has asked for: what the last command that was accepted says, plus the slot it overlooked if
      `manejador_new_ready` had one in its hands; `g` until then. */
  function GradoPedido(s: Estado, evs: seq<Evento>, g: int): int
    requires Corrida(s, evs)
    decreases evs
  {
    if evs == [] then g
    else
      var h := match evs[0]
               case CambiarMultiprog(n) => if n >= CantProgs(s) then n + Uno(s.newReady == ConDos) else g
               case _ => g;
      if Paso(s, evs[0]).None? then h else GradoPedido(Paso(s, evs[0]).value, evs[1..], h)
  }

  lemma CommandDegree(s: Estado, n: int)
    ensures Grado(MultiprogCambiado(s, n)) == if n >= CantProgs(s) then n + Uno(s.newReady == ConDos) else Grado(s)
  {
  }

  /** Over any run, console commands included: free, occupied and taken slots together are the degree asked for, so
      that no more processes than that hold a slot. */
  lemma {:induction false} DegreeOverRuns(s: Estado, evs: seq<Evento>)
    requires Inv(s) && Corrida(s, evs)
    ensures Tras(s, evs).Some? ==>
      && Grado(Tras(s, evs).value) == GradoPedido(s, evs, Grado(s))
      && CantProgs(Tras(s, evs).value) <= GradoPedido(s, evs, Grado(s))
    ensures (forall i :: 0 <= i < |evs| ==> !evs[i].CambiarMultiprog?) ==> GradoPedido(s, evs, Grado(s)) == Grado(s)
    decreases evs
  {
    hide Inv, Paso, Posible, Sano, MultiprogCambiado, CantProgs;
    if evs != [] {
      StepKeeps(s, evs[0]);
      if Sano(s, evs[0]) {
        if evs[0].CambiarMultiprog? {
          PasoCambia(s, evs[0].n);
          CommandDegree(s, evs[0].n);
        } else {
          StepDegree(s, evs[0]);
        }
        DegreeOverRuns(Paso(s, evs[0]).value, evs[1..]);
        assert forall i :: 0 <= i < |evs| - 1 ==> evs[1..][i] == evs[i + 1];
      }
    }
  }

  lemma PasoCambia(s: Estado, n: int)
    ensures Posible(s, CambiarMultiprog(n)) && Paso(s, CambiarMultiprog(n)) == Some(MultiprogCambiado(s, n))
  {
  }

  /** From the start: the degree is the configured one until a command is accepted, and a semaphore is worth its configured
      value plus signals minus waits. */
  lemma FromTheStart(multiprog: nat, valores: seq<int>, disps: nat, evs: seq<Evento>, k: nat)
    requires (forall i :: 0 <= i < |valores| ==> valores[i] >= 0) && k < |valores|
    requires Corrida(Inicial(multiprog, valores, disps), evs) && Tras(Inicial(multiprog, valores, disps), evs).Some?
    ensures var s, t := Inicial(multiprog, valores, disps), Tras(Inicial(multiprog, valores, disps), evs).value;
            && CantProgs(t) <= Grado(t) == GradoPedido(s, evs, multiprog)
            && ((forall i :: 0 <= i < |evs| ==> !evs[i].CambiarMultiprog?) ==> Grado(t) == multiprog)
            && k < |t.sems| && t.sems[k].valor == valores[k] + Saldo(evs, k)
  {
    hide Corrida, Tras, GradoPedido, Saldo, Inv;
    var s := Inicial(multiprog, valores, disps);
    StartsIff(multiprog, valores, disps);
    assert Grado(s) == multiprog && s.sems[k].valor == valores[k];
    DegreeOverRuns(s, evs);
    ValueOverRuns(s, evs, k);
  }

  // ---- Weights ----

  /** `get_peso_min` takes the first of the lightest processes and leaves the rest rotated, as long as some
      weight is at most the cap. */
  lemma FirstLightest(q: seq<Proceso>)
    requires exists p :: p in q && p.peso <= PESO_TOPE
    ensures var i := Primero(q, PorPeso(PesoMin(q)));
            && i < |q|
            && (forall j :: 0 <= j < |q| ==> q[i].peso <= q[j].peso)
            && (forall j :: 0 <= j < i ==> q[i].peso < q[j].peso)
  {
    PesoMinFound(q);
    var i := Primero(q, PorPeso(PesoMin(q)));
    forall j | 0 <= j < |q|
      ensures q[i].peso <= q[j].peso && (j < i ==> q[i].peso < q[j].peso)
    {
      assert q[j] in q;
      if j < i {
        assert !Cumple(q[j], PorPeso(PesoMin(q)));
      }
    }
  }

  /** A round of `manejador_new_ready` keeps the degree if and only if some new process weighs at most the
      cap; otherwise it leaves the queue as it was and both tokens are gone. */
  lemma SlotLostIff(s: Estado)
    requires s.newReady == ConDos
    ensures Grado(NuevoPasado(s)) == Grado(s) <==> exists p :: p in s.nuevos && p.peso <= PESO_TOPE
    ensures Grado(NuevoPasado(s)) != Grado(s) ==>
      NuevoPasado(s) == s.(newReady := Esperando, errores := s.errores + 1)
  {
    PesoMinFound(s.nuevos);
  }
}
