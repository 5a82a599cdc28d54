/** Who goes where, and in what order: what each step does to each queue, and that the lines are served first come,
    first served over whole runs. */
module Order {
  import opened Bytes
  import opened Wire
  import opened Scheduler
  import opened Invariant
  import opened Steps
  import opened Runs

  // ---- The records that move ----

  /** `q` is the record of the process that CPU runs. */
  predicate Corre(s: Estado, soc: int, q: Proceso) {
    Ocupada(s, soc) && q in s.exec && q.pcb.id == EnCpu(s, soc)
  }

  /** The record `q` after the CPU has handed back `men`. */
  function ConBloque(q: Proceso, men: Pcb): Proceso {
    q.(pcb := q.pcb.(cantVar := men.cantVar, dirCont := men.dirCont, pc := men.pc))
  }

  /** The record as it comes back; a CPU that is going away hands back nothing that is kept. */
  function Devuelta(q: Proceso, men: Pcb, cierra: bool): Proceso {
    if cierra then q else ConBloque(q, men)
  }

  /** Semaphore `k` with one more at the end of its line. */
  function FilaMas(s: Estado, k: nat, id: int): seq<Semaforo>
    requires k < |s.sems|
  {
    s.sems[k := Semaforo(s.sems[k].valor - 1, s.sems[k].procesos + [id])]
  }

  /** Semaphore `k` without the first of its line. */
  function FilaMenos(s: Estado, k: nat): seq<Semaforo>
    requires k < |s.sems| && s.sems[k].procesos != []
  {
    s.sems[k := Semaforo(s.sems[k].valor + 1, s.sems[k].procesos[1..])]
  }

  /** Device `d` with one more request at the end of its line. */
  function PedidoMas(s: Estado, d: nat, id: int): seq<Dispositivo>
    requires d < |s.disps|
  {
    var x := s.disps[d];
    s.disps[d := x.(procesos := x.procesos + [id], cont := x.cont + 1)]
  }

  function Servido(s: Estado, d: nat): seq<Dispositivo>
    requires d < |s.disps|
  {
    s.disps[d := s.disps[d].(sirviendo := None)]
  }

  /** Entry `i` is the first of the lightest, and not above the cap. */
  predicate MasLigero(q: seq<Proceso>, i: nat) {
    && i < |q| && q[i].peso <= PESO_TOPE
    && (forall j :: 0 <= j < |q| ==> q[i].peso <= q[j].peso)
    && (forall j :: 0 <= j < i ==> q[i].peso < q[j].peso)
  }

  /** `xs` is what a step adds to ready: the lightest of the new, a process that is woken, or the process of a CPU that
      ends its quantum or is lost. */
  ghost predicate Llegan(s: Estado, e: Evento, xs: seq<Proceso>)
    requires Posible(s, e)
  {
    match e
    case NuevoAListo => exists i: nat :: MasLigero(s.nuevos, i) && xs == [s.nuevos[i]]
    case IoTermina(d) => |xs| == 1 && xs[0] in s.block && xs[0].pcb.id == s.disps[d].sirviendo.value
    case Signal(_, k) =>
      if k < |s.sems| && s.sems[k].procesos != []
      then |xs| == 1 && xs[0] in s.block && xs[0].pcb.id == s.sems[k].procesos[0] else xs == []
    case CpuCae(soc) => if Ocupada(s, soc) then |xs| == 1 && Corre(s, soc, xs[0]) else xs == []
    case FinQuantum(soc, men, cierra) => exists q :: Corre(s, soc, q) && xs == [Devuelta(q, men, cierra)]
    case _ => xs == []
  }

  /** `xs` is what a step adds to exit, each with the reason its program will be sent. */
  ghost predicate Salen(s: Estado, e: Evento, xs: seq<Proceso>) {
    match e
    case FinEjecucion(soc, tipo) => exists q :: Corre(s, soc, q) && xs == [q.(tipoFin := tipo)]
    case VariableInexistente(soc) => exists q :: Corre(s, soc, q) && xs == [q.(tipoFin := VAR_INEX)]
    case Wait(soc, k, _, _) =>
      if k >= |s.sems| then exists q :: Corre(s, soc, q) && xs == [q.(tipoFin := SEM_INEX)] else xs == []
    case Signal(soc, k) =>
      if k >= |s.sems| then exists q :: Corre(s, soc, q) && xs == [q.(tipoFin := SEM_INEX)] else xs == []
    case ProgCierra(soc) =>
      if exists q :: q in s.exec && q.socket == soc then |xs| == 1 && xs[0] in s.exec && xs[0].socket == soc else xs == []
    case _ => xs == []
  }

  // ---- What the handlers do, queue by queue ----

  lemma TakenOut(q: seq<Proceso>, i: nat)
    requires i < |q|
    ensures multiset(Girada(q, i)) == multiset(q) - multiset{q[i]}
  {
    assert q == q[..i] + [q[i]] + q[i + 1..];
  }

  /** The list without entry `i`. */
  function Salvo(cs: seq<Cpu>, i: nat): seq<Cpu>
    requires i < |cs|
  {
    cs[..i] + cs[i + 1..]
  }

  /** The entry of a busy CPU in the list. */
  function EntradaCpu(s: Estado, soc: int): Cpu
    requires Conectada(s, soc)
  {
    s.cpus[Primera(s.cpus, PorSocCpu(soc))]
  }

  /** Process and CPU leave their lists; nothing else changes. */
  lemma Evicted(s: Estado, soc: int) returns (t: Estado, q: Proceso)
    requires Inv(s) && Ocupada(s, soc)
    ensures Desalojado(s, soc) == Some((t, EntradaCpu(s, soc), q)) && Corre(s, soc, q)
    ensures t == s.(cpus := t.cpus, exec := t.exec)
    ensures multiset(t.exec) == multiset(s.exec) - multiset{q}
    ensures t.cpus == Salvo(s.cpus, Primera(s.cpus, PorSocCpu(soc)))
  {
    hide Inv, Girada, Primero, Primera;
    var c := Primera(s.cpus, PorSocCpu(soc));
    EnExec(s, c);
    var i := Primero(s.exec, PorId(s.cpus[c].idExec));
    TakenOut(s.exec, i);
    t, q := s.(cpus := SinCpu(s.cpus, c), exec := Girada(s.exec, i)), s.exec[i];
  }

  /** The CPUs after one that ran a process has let go of it: it is free, at the end of the list, unless `cierra`. */
  predicate CpuSuelta(s: Estado, soc: int, cierra: bool, t: Estado)
    requires Conectada(s, soc)
  {
    t.cpus == Salvo(s.cpus, Primera(s.cpus, PorSocCpu(soc))) + if cierra then [] else [Cpu(soc, 0, 0)]
  }

  lemma Released(s: Estado, soc: int, t: Estado)
    requires Conectada(s, soc) && t.cpus == Salvo(s.cpus, Primera(s.cpus, PorSocCpu(soc)))
    ensures CpuSuelta(s, soc, true, t) && CpuSuelta(s, soc, false, Libera(t, EntradaCpu(s, soc)))
    ensures Libera(t, EntradaCpu(s, soc)) == t.(cpus := t.cpus + [Cpu(soc, 0, 0)], cantLibres := t.cantLibres + 1)
  {
  }

  lemma QuantumEffect(s: Estado, soc: int, men: Pcb, cierra: bool) returns (q: Proceso)
    requires Inv(s) && Ocupada(s, soc)
    ensures QuantumTerminado(s, soc, men, cierra).Some? && Corre(s, soc, q)
    ensures var t := QuantumTerminado(s, soc, men, cierra).value;
            && t == s.(listos := s.listos + [Devuelta(q, men, cierra)], exec := t.exec, cpus := t.cpus,
                       cantReady := t.cantReady, cantLibres := t.cantLibres)
            && multiset(t.exec) == multiset(s.exec) - multiset{q} && CpuSuelta(s, soc, cierra, t)
  {
    hide Inv, Desalojado, Corre, EntradaCpu, CpuSuelta, Primera;
    var s1;
    s1, q := Evicted(s, soc);
    Released(s, soc, s1);
    Released(s, soc, AListos(s1, ConBloque(q, men)));
    SameCpus(s, soc, s1, AListos(s1, q));
  }

  lemma SameCpus(s: Estado, soc: int, t: Estado, u: Estado)
    requires Conectada(s, soc) && u.cpus == t.cpus
    ensures forall cierra :: CpuSuelta(s, soc, cierra, t) ==> CpuSuelta(s, soc, cierra, u)
  {
  }

  lemma LostEffect(s: Estado, soc: int) returns (q: Proceso)
    requires Inv(s) && Ocupada(s, soc)
    ensures CpuCaida(s, soc).Some? && Corre(s, soc, q)
    ensures var t := CpuCaida(s, soc).value;
            && t == s.(listos := s.listos + [q], exec := t.exec, cpus := t.cpus, cantReady := t.cantReady)
            && multiset(t.exec) == multiset(s.exec) - multiset{q} && CpuSuelta(s, soc, true, t)
  {
    hide Inv, Desalojado, EntradaCpu, Corre, CpuSuelta, Primera;
    var s1;
    s1, q := Evicted(s, soc);
    Released(s, soc, s1);
    SameCpus(s, soc, s1, AListos(s1, q));
  }

  lemma BlockedEffect(s: Estado, soc: int, men: Pcb, cierra: bool) returns (q: Proceso)
    requires Inv(s) && Ocupada(s, soc)
    ensures Bloqueado(s, soc, men, cierra).Some? && Bloqueado(s, soc, men, cierra).value.1 == EnCpu(s, soc) && Corre(s, soc, q)
    ensures var t := Bloqueado(s, soc, men, cierra).value.0;
            && t == s.(block := s.block + [ConBloque(q, men)], exec := t.exec, cpus := t.cpus, cantLibres := t.cantLibres)
            && multiset(t.exec) == multiset(s.exec) - multiset{q} && CpuSuelta(s, soc, cierra, t)
  {
    hide Inv, Desalojado, EntradaCpu, CpuSuelta, Primera;
    var s1;
    s1, q := Evicted(s, soc);
    Released(s, soc, s1);
    SameCpus(s, soc, if cierra then s1 else Libera(s1, EntradaCpu(s, soc)), Bloqueado(s, soc, men, cierra).value.0);
  }

  lemma EndedEffect(s: Estado, soc: int, tipo: int) returns (q: Proceso)
    requires Inv(s) && Ocupada(s, soc)
    ensures Terminado(s, soc, tipo).Some? && Corre(s, soc, q)
    ensures var t := Terminado(s, soc, tipo).value;
            && t == s.(exit := s.exit + [q.(tipoFin := tipo)], exec := t.exec, cpus := t.cpus, cantExit := t.cantExit,
                       cantMultiprog := t.cantMultiprog, cantLibres := t.cantLibres)
            && multiset(t.exec) == multiset(s.exec) - multiset{q} && CpuSuelta(s, soc, false, t)
  {
    hide Inv, Desalojado, EntradaCpu, Corre, CpuSuelta, Primera;
    var s1;
    s1, q := Evicted(s, soc);
    Released(s, soc, ASalida(s1, q.(tipoFin := tipo)));
  }

  /** A process that waits in a line is found among the blocked, and goes to the tail of ready. */
  lemma WokenEffect(s: Estado, sems: seq<Semaforo>, disps: seq<Dispositivo>, id: int) returns (q: Proceso)
    requires exists p :: p in s.block && p.pcb.id == id
    ensures var t := Desbloqueado(s.(sems := sems, disps := disps), id);
            && q in s.block && q.pcb.id == id && multiset(t.block) == multiset(s.block) - multiset{q}
            && t == s.(sems := sems, disps := disps, listos := s.listos + [q], block := t.block, cantReady := t.cantReady)
  {
    hide Girada, Primero;
    var i := Primero(s.block, PorId(id));
    var p :| p in s.block && p.pcb.id == id;
    var j :| 0 <= j < |s.block| && s.block[j] == p;
    assert Cumple(s.block[j], PorId(id));
    q := s.block[i];
    TakenOut(s.block, i);
  }

  /** Whoever waits for a semaphore is blocked, and so is whoever a device serves. */
  lemma WaiterIsBlocked(s: Estado, k: nat, id: int)
    requires Inv(s) && k < |s.sems| && id in s.sems[k].procesos
    ensures exists p :: p in s.block && p.pcb.id == id
  {
    hide Inv;
    BlockedInOneLine(s, id);
    assert EnSem(s.sems, k, id);
  }

  lemma ServedIsBlocked(s: Estado, d: nat)
    requires Inv(s) && d < |s.disps| && s.disps[d].sirviendo.Some?
    ensures exists p :: p in s.block && p.pcb.id == s.disps[d].sirviendo.value
  {
    hide Inv;
    BlockedInOneLine(s, s.disps[d].sirviendo.value);
    assert EnDisp(s.disps, d, s.disps[d].sirviendo.value);
  }

  /** `get_peso_min` takes nothing if every weight is above the cap, and else the first of the lightest; the others
      are turned round it. */
  ghost predicate Elegido(q: seq<Proceso>, rest: seq<Proceso>, r: Option<Proceso>) {
    && (r.Some? <==> exists p :: p in q && p.peso <= PESO_TOPE)
    && (r.Some? ==> exists i: nat :: MasLigero(q, i) && r.value == q[i] && rest == q[i + 1..] + q[..i])
    && (r.None? ==> rest == q)
  }

  lemma LightestTaken(q: seq<Proceso>)
    ensures Elegido(q, MasLiviano(q).0, MasLiviano(q).1)
  {
    hide Primero, PesoMin;
    PesoMinFound(q);
    if p :| p in q && p.peso <= PESO_TOPE {
      FirstLightest(q);
      assert MasLigero(q, Primero(q, PorPeso(PesoMin(q))));
    }
  }

  lemma LightestEffect(s: Estado) returns (i: nat)
    requires exists p :: p in s.nuevos && p.peso <= PESO_TOPE
    ensures i < |s.nuevos| && MasLigero(s.nuevos, i)
    ensures var t := NuevoPasado(s);
            t == s.(newReady := Esperando, nuevos := s.nuevos[i + 1..] + s.nuevos[..i], listos := s.listos + [s.nuevos[i]],
                    cantReady := t.cantReady)
  {
    hide MasLiviano;
    LightestTaken(s.nuevos);
    var (rest, r) := MasLiviano(s.nuevos);
    i :| i < |s.nuevos| && MasLigero(s.nuevos, i) && r.value == s.nuevos[i] && rest == s.nuevos[i + 1..] + s.nuevos[..i];
  }

  lemma SomeoneIsNew(s: Estado)
    requires Inv(s) && s.newReady == ConDos
    ensures exists p :: p in s.nuevos && p.peso <= PESO_TOPE
  {
    hide Censo, EnUnaCola, CuatroSegmentos, CpusEnOrden, Repartidos;
    assert s.nuevos[0] in s.nuevos;
  }

  /** The head of ready goes to the first free CPU. */
  lemma DispatchEffect(s: Estado) returns (c: nat)
    requires Inv(s) && s.readyExec == ConDos
    ensures Despachado(s).Some? && s.listos != [] && c < |s.cpus|
    ensures s.cpus[c].idExec == 0 && forall j :: 0 <= j < c ==> s.cpus[j].idExec != 0
    ensures var (t, p) := (Despachado(s).value, s.listos[0]);
            && t == s.(readyExec := Esperando, listos := s.listos[1..], exec := s.exec + [p], cpus := t.cpus)
            && t.cpus == Salvo(s.cpus, c) + [Cpu(s.cpus[c].socCpu, p.socket, p.pcb.id)]
  {
    hide Censo, EnUnaCola, CuatroSegmentos, CpusEnOrden, Repartidos, Primera;
    DespachaKeeps(s);
    c := Primera(s.cpus, Libre);
  }

  lemma IoTakeEffect(s: Estado, d: nat)
    requires Inv(s) && d < |s.disps| && s.disps[d].sirviendo.None? && s.disps[d].cont > 0
    ensures s.disps[d].procesos != [] && IoTomado(s, d).Some?
    ensures var (t, x) := (IoTomado(s, d).value, s.disps[d]);
            t == s.(disps := s.disps[d := Dispositivo(x.procesos[1..], t.disps[d].cont, Some(x.procesos[0]))])
  {
    hide Inv;
    ExactDevices(s);
  }

  lemma ProgMoves(s: Estado, soc: int)
    requires Posible(s, ProgCierra(soc))
    requires Primero(s.exec, PorSocket(soc)) < |s.exec| <==> Primera(s.cpus, PorProg(soc)) < |s.cpus|
    ensures var c, i, t := Primera(s.cpus, PorProg(soc)), Primero(s.exec, PorSocket(soc)), ProgCerrado(s, soc);
            if i == |s.exec| then t == s
            else t == s.(exit := s.exit + [s.exec[i]], exec := Girada(s.exec, i), cpus := SinCpu(s.cpus, c),
                         cantExit := t.cantExit, cantMultiprog := t.cantMultiprog)
  {
    hide Girada, SinCpu, Primero, Primera;
    NoneLeaves(s.nuevos, soc);
    NoneLeaves(s.listos, soc);
    NoneLeaves(s.block, soc);
  }

  /** A program that disconnects while it executes takes its process to exit and its CPU away. */
  lemma ProgEffect(s: Estado, soc: int) returns (xs: seq<Proceso>)
    requires Inv(s) && Posible(s, ProgCierra(soc))
    ensures Salen(s, ProgCierra(soc), xs)
    ensures var t := ProgCerrado(s, soc);
            && t == s.(exit := s.exit + xs, exec := t.exec, cpus := t.cpus, cantExit := t.cantExit, cantMultiprog := t.cantMultiprog)
            && multiset(t.exec) == multiset(s.exec) - multiset(xs) && SinLaCpu(s, soc, xs, t)
  {
    hide Inv, Girada, Primero, Primera, ProgCerrado;
    CpuDelPrograma(s, soc);
    ProgMoves(s, soc);
    var c, i := Primera(s.cpus, PorProg(soc)), Primero(s.exec, PorSocket(soc));
    if i == |s.exec| {
      xs := [];
      assert forall q :: q in s.exec ==> !Cumple(q, PorSocket(soc));
    } else {
      xs := [s.exec[i]];
      TakenOut(s.exec, i);
      assert SinCpu(s.cpus, c) == Salvo(s.cpus, c);
      EnExec(s, c);
      assert CumpleCpu(s.cpus[c], PorProg(soc));
      SameConnection(s, soc, i, Primero(s.exec, PorId(s.cpus[c].idExec)));
    }
  }

  /** The CPU that ran the process that left is gone. */
  ghost predicate SinLaCpu(s: Estado, soc: int, xs: seq<Proceso>, t: Estado) {
    if xs == [] then t.cpus == s.cpus
    else exists c: nat :: c < |s.cpus| && s.cpus[c].socProg == soc && s.cpus[c].idExec == xs[0].pcb.id
                          && t.cpus == Salvo(s.cpus, c)
  }

  /** The first process of that connection in a queue, if there is one. */
  function DeLaConexion(q: seq<Proceso>, soc: int): seq<Proceso> {
    var i := Primero(q, PorSocket(soc));
    if i < |q| then [q[i]] else []
  }

  /** `mover_pcb_exit`, from any state: what the connection has in new, ready, block and exec goes to exit in that order,
      with a slot and a token for each, and nothing else moves. */
  lemma AllOfTheConnection(s: Estado, soc: int)
    ensures var t := PcbMovido(s, soc);
            var xs := DeLaConexion(s.nuevos, soc) + DeLaConexion(s.listos, soc) + DeLaConexion(s.block, soc) + DeLaConexion(s.exec, soc);
            && t.exit == s.exit + xs && t.cantExit == s.cantExit + |xs| && t.cantMultiprog == s.cantMultiprog + |xs|
            && multiset(t.nuevos) == multiset(s.nuevos) - multiset(DeLaConexion(s.nuevos, soc))
            && multiset(t.listos) == multiset(s.listos) - multiset(DeLaConexion(s.listos, soc))
            && multiset(t.block) == multiset(s.block) - multiset(DeLaConexion(s.block, soc))
            && multiset(t.exec) == multiset(s.exec) - multiset(DeLaConexion(s.exec, soc))
            && t == s.(nuevos := t.nuevos, listos := t.listos, block := t.block, exec := t.exec, exit := t.exit,
                       cantExit := t.cantExit, cantMultiprog := t.cantMultiprog)
  {
    hide Salido, ASalidaSi, DeLaConexion;
    FirstTaken(s.nuevos, soc);
    FirstTaken(s.listos, soc);
    FirstTaken(s.block, soc);
    FirstTaken(s.exec, soc);
    var (a, b, c, d) := (DeLaConexion(s.nuevos, soc), DeLaConexion(s.listos, soc), DeLaConexion(s.block, soc), DeLaConexion(s.exec, soc));
    GoesToExit(s.(nuevos := Salido(s.nuevos, soc).0), s.nuevos, soc);
    var s1 := SinNuevo(s, soc);
    GoesToExit(s1.(listos := Salido(s.listos, soc).0), s.listos, soc);
    var s2 := SinListo(s1, soc);
    GoesToExit(s2.(block := Salido(s.block, soc).0), s.block, soc);
    var s3 := SinBloqueado(s2, soc);
    GoesToExit(s3.(exec := Salido(s.exec, soc).0), s.exec, soc);
    assert s.exit + a + b + c + d == s.exit + (a + b + c + d);
  }

  lemma GoesToExit(s: Estado, q: seq<Proceso>, soc: int)
    ensures var xs := DeLaConexion(q, soc);
            ASalidaSi(s, Salido(q, soc).1) ==
            s.(exit := s.exit + xs, cantExit := s.cantExit + |xs|, cantMultiprog := s.cantMultiprog + |xs|)
  {
    hide Primero;
    assert s.exit + [] == s.exit;
  }

  lemma FirstTaken(q: seq<Proceso>, soc: int)
    ensures multiset(Salido(q, soc).0) == multiset(q) - multiset(DeLaConexion(q, soc))
  {
    hide Primero, Girada;
    var i := Primero(q, PorSocket(soc));
    if i < |q| {
      TakenOut(q, i);
    }
  }

  lemma SameConnection(s: Estado, soc: int, i: nat, j: nat)
    requires Posible(s, ProgCierra(soc)) && i < |s.exec| && j < |s.exec|
    requires s.exec[i].socket == soc && s.exec[j].socket == soc
    ensures i == j
  {
  }

  lemma WaitEffect(s: Estado, soc: int, k: nat, men: Pcb, cierra: bool) returns (q: Proceso)
    requires Inv(s) && Sano(s, Wait(soc, k, men, cierra)) && k < |s.sems|
    ensures Esperado(s, soc, k, men, cierra).Some?
    ensures var (t, x) := (Esperado(s, soc, k, men, cierra).value, s.sems[k]);
            if x.valor > 0 then t == s.(sems := s.sems[k := x.(valor := x.valor - 1)])
            else
              && Corre(s, soc, q)
              && t == s.(sems := s.sems[k := Semaforo(x.valor - 1, x.procesos + [EnCpu(s, soc)])],
                         block := s.block + [ConBloque(q, men)], exec := t.exec, cpus := t.cpus, cantLibres := t.cantLibres)
              && multiset(t.exec) == multiset(s.exec) - multiset{q} && CpuSuelta(s, soc, cierra, t)
  {
    hide Inv, Bloqueado, CpuSuelta, EntradaCpu;
    if s.sems[k].valor <= 0 {
      q := BlockedEffect(s, soc, men, cierra);
      SameCpus(s, soc, Bloqueado(s, soc, men, cierra).value.0, Esperado(s, soc, k, men, cierra).value);
    } else {
      q :| true;
    }
  }

  lemma RequestEffect(s: Estado, soc: int, d: nat, men: Pcb, cierra: bool) returns (q: Proceso)
    requires Inv(s) && Ocupada(s, soc) && d < |s.disps|
    ensures Enviado(s, soc, d, men, cierra).Some? && Corre(s, soc, q)
    ensures var (t, x) := (Enviado(s, soc, d, men, cierra).value, s.disps[d]);
            && t == s.(disps := s.disps[d := x.(procesos := x.procesos + [EnCpu(s, soc)], cont := x.cont + 1)],
                       block := s.block + [ConBloque(q, men)], exec := t.exec, cpus := t.cpus, cantLibres := t.cantLibres)
            && multiset(t.exec) == multiset(s.exec) - multiset{q} && CpuSuelta(s, soc, cierra, t)
  {
    hide Inv, Bloqueado, CpuSuelta, EntradaCpu, Corre;
    q := BlockedEffect(s, soc, men, cierra);
    SameCpus(s, soc, Bloqueado(s, soc, men, cierra).value.0, Enviado(s, soc, d, men, cierra).value);
  }

  lemma SignalEffect(s: Estado, soc: int, k: nat) returns (q: Proceso)
    requires Inv(s) && k < |s.sems|
    ensures Senalado(s, soc, k).Some?
    ensures var (t, x) := (Senalado(s, soc, k).value, s.sems[k]);
            if x.procesos == [] then t == s.(sems := s.sems[k := x.(valor := x.valor + 1)])
            else
              && q in s.block && q.pcb.id == x.procesos[0] && multiset(t.block) == multiset(s.block) - multiset{q}
              && t == s.(sems := s.sems[k := Semaforo(x.valor + 1, x.procesos[1..])], listos := s.listos + [q],
                         block := t.block, cantReady := t.cantReady)
  {
    hide Inv, Desbloqueado;
    var x := s.sems[k];
    if x.procesos != [] {
      WaiterIsBlocked(s, k, x.procesos[0]);
      q := WokenEffect(s, s.sems[k := Semaforo(x.valor + 1, x.procesos[1..])], s.disps, x.procesos[0]);
    } else {
      q :| true;
    }
  }

  lemma ServedEffect(s: Estado, d: nat) returns (q: Proceso)
    requires Inv(s) && d < |s.disps| && s.disps[d].sirviendo.Some?
    ensures var disps := s.disps[d := s.disps[d].(sirviendo := None)];
            var t := Desbloqueado(s.(disps := disps), s.disps[d].sirviendo.value);
            && q in s.block && q.pcb.id == s.disps[d].sirviendo.value && multiset(t.block) == multiset(s.block) - multiset{q}
            && t == s.(disps := disps, listos := s.listos + [q], block := t.block, cantReady := t.cantReady)
  {
    hide Inv, Desbloqueado;
    ServedIsBlocked(s, d);
    q := WokenEffect(s, s.sems, s.disps[d := s.disps[d].(sirviendo := None)], s.disps[d].sirviendo.value);
  }

  // ---- Every step ----

  /** Process `q` and the CPU it runs on leave their lists; the CPU stays connected unless `cierra`. */
  ghost predicate DejaCpu(s: Estado, soc: int, cierra: bool, t: Estado, q: Proceso) {
    Corre(s, soc, q) && multiset(t.exec) == multiset(s.exec) - multiset{q} && CpuSuelta(s, soc, cierra, t)
  }

  ghost predicate Muere(s: Estado, soc: int, tipo: int, t: Estado, q: Proceso) {
    && DejaCpu(s, soc, false, t, q)
    && t == s.(exit := s.exit + [q.(tipoFin := tipo)], exec := t.exec, cpus := t.cpus, cantExit := t.cantExit,
               cantMultiprog := t.cantMultiprog, cantLibres := t.cantLibres)
  }

  ghost predicate Vuelve(s: Estado, soc: int, cierra: bool, t: Estado, q: Proceso, x: Proceso) {
    && DejaCpu(s, soc, cierra, t, q)
    && t == s.(listos := s.listos + [x], exec := t.exec, cpus := t.cpus, cantReady := t.cantReady, cantLibres := t.cantLibres)
  }

  ghost predicate Despierta(s: Estado, sems: seq<Semaforo>, disps: seq<Dispositivo>, id: int, t: Estado, q: Proceso) {
    && q in s.block && q.pcb.id == id && multiset(t.block) == multiset(s.block) - multiset{q}
    && t == s.(sems := sems, disps := disps, listos := s.listos + [q], block := t.block, cantReady := t.cantReady)
  }

  ghost predicate Bloquea(s: Estado, soc: int, men: Pcb, cierra: bool, sems: seq<Semaforo>, disps: seq<Dispositivo>,
                          t: Estado, q: Proceso) {
    && DejaCpu(s, soc, cierra, t, q)
    && t == s.(sems := sems, disps := disps, block := s.block + [ConBloque(q, men)], exec := t.exec, cpus := t.cpus,
               cantLibres := t.cantLibres)
  }

  ghost predicate Elige(s: Estado, t: Estado, i: nat) {
    && MasLigero(s.nuevos, i)
    && t == s.(newReady := t.newReady, nuevos := s.nuevos[i + 1..] + s.nuevos[..i], listos := s.listos + [s.nuevos[i]],
               cantReady := t.cantReady)
  }

  /** The head of ready goes to CPU `c`, the first that is free. */
  ghost predicate Asigna(s: Estado, t: Estado, c: nat) {
    && s.listos != [] && c < |s.cpus| && s.cpus[c].idExec == 0 && (forall j :: 0 <= j < c ==> s.cpus[j].idExec != 0)
    && t == s.(readyExec := t.readyExec, listos := s.listos[1..], exec := s.exec + [s.listos[0]], cpus := t.cpus)
    && t.cpus == Salvo(s.cpus, c) + [Cpu(s.cpus[c].socCpu, s.listos[0].socket, s.listos[0].pcb.id)]
  }

  ghost predicate Desconecta(s: Estado, soc: int, t: Estado, xs: seq<Proceso>) {
    && Salen(s, ProgCierra(soc), xs)
    && t == s.(exit := s.exit + xs, exec := t.exec, cpus := t.cpus, cantExit := t.cantExit, cantMultiprog := t.cantMultiprog)
    && multiset(t.exec) == multiset(s.exec) - multiset(xs) && SinLaCpu(s, soc, xs, t)
  }

  /** What a step does to every queue and list, in terms of the records that move. */
  ghost predicate Efecto(s: Estado, e: Evento, t: Estado)
    requires Posible(s, e) && Sano(s, e)
  {
    match e
    case Admitir(soc, peso, resp) =>
      if resp.None? then t == s.(contador := s.contador + 1)
      else
        var pcb := resp.value.(id := s.contador + 1, cantVar := 0, dirCont := resp.value.dirSegStack);
        t == s.(contador := s.contador + 1, nuevos := s.nuevos + [Proceso(pcb, soc, peso, SIN_FIN)], cantNew := t.cantNew,
                duenos := t.duenos)
    case ProgCierra(soc) => exists xs :: Desconecta(s, soc, t, xs)
    case NuevoAListo => exists i: nat :: Elige(s, t, i)
    case Despacha => exists c: nat :: Asigna(s, t, c)
    case Destruye =>
      s.exit != [] && t == s.(saliendo := t.saliendo, exit := s.exit[1..], duenos := s.duenos[s.exit[0].pcb.id := 0])
    case IoToma(d) =>
      var x := s.disps[d];
      x.procesos != [] && t == s.(disps := s.disps[d := Dispositivo(x.procesos[1..], x.cont - 1, Some(x.procesos[0]))])
    case IoTermina(d) =>
      exists q :: Despierta(s, s.sems, Servido(s, d), s.disps[d].sirviendo.value, t, q)
    case CpuNueva(soc) => t == s.(cpus := s.cpus + [Cpu(soc, 0, 0)], cantLibres := t.cantLibres)
    case CpuCae(soc) =>
      if Ocupada(s, soc) then exists q :: Vuelve(s, soc, true, t, q, q)
      else CpuSuelta(s, soc, true, t) && t == s.(cpus := t.cpus, cantLibres := t.cantLibres)
    case FinQuantum(soc, men, cierra) => exists q :: Vuelve(s, soc, cierra, t, q, Devuelta(q, men, cierra))
    case Wait(soc, k, men, cierra) =>
      if k >= |s.sems| then exists q :: Muere(s, soc, SEM_INEX, t, q)
      else
        var x := s.sems[k];
        if x.valor > 0 then t == s.(sems := s.sems[k := x.(valor := x.valor - 1)])
        else exists q :: Bloquea(s, soc, men, cierra, FilaMas(s, k, EnCpu(s, soc)), s.disps, t, q)
    case Signal(soc, k) =>
      if k >= |s.sems| then exists q :: Muere(s, soc, SEM_INEX, t, q)
      else
        var x := s.sems[k];
        if x.procesos == [] then t == s.(sems := s.sems[k := x.(valor := x.valor + 1)])
        else exists q :: Despierta(s, FilaMenos(s, k), s.disps, x.procesos[0], t, q)
    case EnviarIO(soc, d, men, cierra) =>
      exists q :: Bloquea(s, soc, men, cierra, s.sems, PedidoMas(s, d, EnCpu(s, soc)), t, q)
    case FinEjecucion(soc, tipo) => exists q :: Muere(s, soc, tipo, t, q)
    case VariableInexistente(soc) => exists q :: Muere(s, soc, VAR_INEX, t, q)
    case _ =>   // a token taken, or the console command
      t == s.(cantNew := t.cantNew, cantReady := t.cantReady, cantExit := t.cantExit, cantMultiprog := t.cantMultiprog,
              cantLibres := t.cantLibres, newReady := t.newReady, readyExec := t.readyExec, saliendo := t.saliendo)
  }

  lemma FreeCpuGoes(s: Estado, soc: int)
    requires Conectada(s, soc) && !Ocupada(s, soc) && CpuCaida(s, soc).Some?
    ensures var t := CpuCaida(s, soc).value;
            CpuSuelta(s, soc, true, t) && t == s.(cpus := t.cpus, cantLibres := t.cantLibres)
  {
    hide Primera;
  }

  lemma TokensOnly(s: Estado, n: int)
    ensures MultiprogCambiado(s, n) == s.(cantMultiprog := MultiprogCambiado(s, n).cantMultiprog)
  {
  }

  /** The steps of the CPU side. */
  lemma CpuStepEffect(s: Estado, e: Evento)
    requires Inv(s) && Posible(s, e) && Sano(s, e) && Paso(s, e).Some?
    requires !e.ProgCierra? && !e.NuevoAListo? && !e.Despacha? && !e.Destruye? && !e.IoToma? && !e.IoTermina?
    ensures Efecto(s, e, Paso(s, e).value)
  {
    hide Inv, Corre, CpuSuelta, EnCpu, ConBloque, EntradaCpu;
    hide CpuCaida, QuantumTerminado, Esperado, Senalado, Enviado, Terminado, MultiprogCambiado;
    match e
    case CpuCae(soc) =>
      if Ocupada(s, soc) {
        var q := LostEffect(s, soc);
        assert Vuelve(s, soc, true, Paso(s, e).value, q, q);
      } else {
        FreeCpuGoes(s, soc);
      }
    case FinQuantum(soc, men, cierra) =>
      var q := QuantumEffect(s, soc, men, cierra);
      assert Vuelve(s, soc, cierra, Paso(s, e).value, q, Devuelta(q, men, cierra));
    case EnviarIO(soc, d, men, cierra) =>
      var q := RequestEffect(s, soc, d, men, cierra);
      assert Bloquea(s, soc, men, cierra, s.sems, PedidoMas(s, d, EnCpu(s, soc)), Paso(s, e).value, q);
    case Wait(soc, k, men, cierra) => WaitStepEffect(s, soc, k, men, cierra, Paso(s, e).value);
    case Signal(soc, k) => SignalStepEffect(s, soc, k, Paso(s, e).value);
    case FinEjecucion(soc, tipo) => DiesEffect(s, soc, tipo, Paso(s, e).value);
    case VariableInexistente(soc) => DiesEffect(s, soc, VAR_INEX, Paso(s, e).value);
    case CambiarMultiprog(n) => TokensOnly(s, n);
    case _ =>
  }

  lemma DiesEffect(s: Estado, soc: int, tipo: int, t: Estado)
    requires Inv(s) && Ocupada(s, soc) && Terminado(s, soc, tipo) == Some(t)
    ensures exists q :: Muere(s, soc, tipo, t, q)
  {
    hide Inv, Corre, CpuSuelta, Terminado;
    var q := EndedEffect(s, soc, tipo);
    assert Muere(s, soc, tipo, t, q);
  }

  lemma WaitStepEffect(s: Estado, soc: int, k: nat, men: Pcb, cierra: bool, t: Estado)
    requires Posible(s, Wait(soc, k, men, cierra)) && Sano(s, Wait(soc, k, men, cierra))
    requires Inv(s) && Esperado(s, soc, k, men, cierra) == Some(t)
    ensures Efecto(s, Wait(soc, k, men, cierra), t)
  {
    hide Inv, Corre, CpuSuelta, Terminado, Bloqueado, ConBloque, Muere, Primera;
    if k >= |s.sems| {
      DiesEffect(s, soc, SEM_INEX, t);
    } else {
      var q := WaitEffect(s, soc, k, men, cierra);
      if s.sems[k].valor <= 0 {
        assert Bloquea(s, soc, men, cierra, FilaMas(s, k, EnCpu(s, soc)), s.disps, t, q);
      }
    }
  }

  lemma SignalStepEffect(s: Estado, soc: int, k: nat, t: Estado)
    requires Posible(s, Signal(soc, k)) && Sano(s, Signal(soc, k))
    requires Inv(s) && Senalado(s, soc, k) == Some(t)
    ensures Efecto(s, Signal(soc, k), t)
  {
    hide Inv, Corre, CpuSuelta, Terminado, Desbloqueado, Muere, Despierta, Primera, EnCpu;
    if k >= |s.sems| {
      DiesEffect(s, soc, SEM_INEX, t);
    } else {
      var q := SignalEffect(s, soc, k);
      if s.sems[k].procesos != [] {
        Wakes(s, k, t, q);
      }
    }
  }

  lemma Wakes(s: Estado, k: nat, t: Estado, q: Proceso)
    requires k < |s.sems| && s.sems[k].procesos != [] && q in s.block && q.pcb.id == s.sems[k].procesos[0]
    requires multiset(t.block) == multiset(s.block) - multiset{q}
    requires var x := s.sems[k];
             t == s.(sems := s.sems[k := Semaforo(x.valor + 1, x.procesos[1..])], listos := s.listos + [q], block := t.block,
                     cantReady := t.cantReady)
    ensures Despierta(s, FilaMenos(s, k), s.disps, s.sems[k].procesos[0], t, q)
  {
  }

  lemma StepEffect(s: Estado, e: Evento)
    requires Inv(s) && Posible(s, e) && Sano(s, e)
    ensures Paso(s, e).Some? && Inv(Paso(s, e).value) && Efecto(s, e, Paso(s, e).value)
  {
    hide Inv, Corre, MasLigero, CpuSuelta, Salen, SinLaCpu, EnCpu, Ocupada, ConBloque, EntradaCpu;
    hide ProgCerrado, NuevoPasado, Despachado, Desbloqueado, CpuCaida;
    hide QuantumTerminado, Esperado, Senalado, Enviado, Terminado, MultiprogCambiado;
    StepKeeps(s, e);
    match e
    case ProgCierra(soc) =>
      var xs := ProgEffect(s, soc);
      assert Desconecta(s, soc, ProgCerrado(s, soc), xs);
    case NuevoAListo =>
      SomeoneIsNew(s);
      var i := LightestEffect(s);
      assert Elige(s, NuevoPasado(s), i);
    case Despacha =>
      var c := DispatchEffect(s);
      assert Asigna(s, Despachado(s).value, c);
    case Destruye => SomeoneLeaves(s);
    case IoToma(d) => IoTakeEffect(s, d);
    case IoTermina(d) =>
      var q := ServedEffect(s, d);
      assert Despierta(s, s.sems, Servido(s, d), s.disps[d].sirviendo.value, Paso(s, e).value, q);
    case _ => CpuStepEffect(s, e);
  }

  // ---- The laws of the queues ----

  /** Ready is a queue: what was there stays in its order, only a dispatch takes the head, and whoever arrives is
      put behind. */
  lemma ReadyLaw(s: Estado, e: Evento) returns (xs: seq<Proceso>)
    requires Inv(s) && Posible(s, e) && Sano(s, e)
    ensures Paso(s, e).Some? && (e.Despacha? ==> s.listos != [])
    ensures Paso(s, e).value.listos == (if e.Despacha? then s.listos[1..] else s.listos) + xs && Llegan(s, e, xs)
  {
    hide Inv, Paso, Posible, Sano, MasLigero, CpuSuelta, SinLaCpu, Salen, ConBloque, Devuelta, FilaMas, FilaMenos, PedidoMas, Servido;
    StepEffect(s, e);
    var t := Paso(s, e).value;
    xs := t.listos[|s.listos| - (if e.Despacha? then 1 else 0)..];
  }

  /** So is exit; each entry carries the reason, and the one destroyed is the head. */
  lemma ExitLaw(s: Estado, e: Evento) returns (xs: seq<Proceso>)
    requires Inv(s) && Posible(s, e) && Sano(s, e)
    ensures Paso(s, e).Some? && (e.Destruye? ==> s.exit != [])
    ensures Paso(s, e).value.exit == (if e.Destruye? then s.exit[1..] else s.exit) + xs && Salen(s, e, xs)
    ensures e.Destruye? ==> Paso(s, e).value.duenos == s.duenos[s.exit[0].pcb.id := 0]
  {
    hide Inv, Paso, Posible, Sano, MasLigero, CpuSuelta, EnCpu, SinLaCpu, ConBloque, Devuelta, FilaMas, FilaMenos, PedidoMas, Servido;
    StepEffect(s, e);
    var t := Paso(s, e).value;
    xs := t.exit[|s.exit| - (if e.Destruye? then 1 else 0)..];
  }

  /** The process a step puts in the line of semaphore `k`. */
  function Espera(s: Estado, e: Evento, k: nat): seq<int> {
    if e.Wait? && e.sem == k && k < |s.sems| && s.sems[k].valor <= 0 && Ocupada(s, e.soc) then [EnCpu(s, e.soc)] else []
  }

  /** The process a step puts in the line of device `d`. */
  function Pide(s: Estado, e: Evento, d: nat): seq<int> {
    if e.EnviarIO? && e.disp == d && Ocupada(s, e.soc) then [EnCpu(s, e.soc)] else []
  }

  /** The line of a semaphore is one: a wait that blocks goes to its end, a signal takes its head. */
  lemma LineLaw(s: Estado, e: Evento, k: nat)
    requires Inv(s) && Posible(s, e) && Sano(s, e) && k < |s.sems|
    ensures Paso(s, e).Some? && |Paso(s, e).value.sems| == |s.sems|
    ensures Paso(s, e).value.sems[k].procesos
         == (if e.Signal? && e.sem == k && s.sems[k].procesos != [] then s.sems[k].procesos[1..] else s.sems[k].procesos)
            + Espera(s, e, k)
  {
    hide Inv, Paso, Posible, CpuSuelta, EnCpu, ConBloque;
    if e.Wait? || e.Signal? {
      StepEffect(s, e);
    } else {
      OthersStay(s, e);
    }
  }

  /** And the line of a device: a request goes to its end, the device takes its head. */
  lemma DeviceLaw(s: Estado, e: Evento, d: nat)
    requires Inv(s) && Posible(s, e) && Sano(s, e) && d < |s.disps|
    ensures Paso(s, e).Some? && |Paso(s, e).value.disps| == |s.disps|
    ensures e == IoToma(d) ==> s.disps[d].procesos != []
    ensures Paso(s, e).value.disps[d].procesos
         == (if e == IoToma(d) then s.disps[d].procesos[1..] else s.disps[d].procesos) + Pide(s, e, d)
    ensures Paso(s, e).value.disps[d].sirviendo
         == if e == IoToma(d) then Some(s.disps[d].procesos[0]) else if e == IoTermina(d) then None else s.disps[d].sirviendo
  {
    hide Inv, Paso, CpuSuelta, EnCpu, Ocupada, ConBloque;
    if e.IoToma? || e.IoTermina? || e.EnviarIO? {
      StepEffect(s, e);
    } else {
      OthersStay(s, e);
    }
  }

  lemma OthersStay(s: Estado, e: Evento)
    requires Inv(s) && Posible(s, e) && Sano(s, e)
    ensures Paso(s, e).Some?
    ensures !e.IoToma? && !e.IoTermina? && !e.EnviarIO? ==> Paso(s, e).value.disps == s.disps
    ensures !e.Wait? && !e.Signal? ==> Paso(s, e).value.sems == s.sems
  {
    hide Inv, Paso, Posible, Sano, MasLigero, CpuSuelta, EnCpu, SinLaCpu, ConBloque, Salen, Devuelta, DejaCpu;
    hide FilaMas, FilaMenos, PedidoMas, Servido, Ocupada;
    StepEffect(s, e);
  }

  /** The new processes: an admitted one is put behind, and the one taken is the first of the lightest. */
  lemma NewLaw(s: Estado, e: Evento)
    requires Inv(s) && Posible(s, e) && Sano(s, e)
    ensures Paso(s, e).Some?
    ensures var t := Paso(s, e).value;
            match e
            case Admitir(soc, peso, resp) =>
              t.nuevos == s.nuevos + if resp.None? then []
                                     else [Proceso(resp.value.(id := s.contador + 1, cantVar := 0, dirCont := resp.value.dirSegStack),
                                                   soc, peso, SIN_FIN)]
            case NuevoAListo =>
              exists i: nat :: MasLigero(s.nuevos, i) && t.nuevos == s.nuevos[i + 1..] + s.nuevos[..i]
            case _ => t.nuevos == s.nuevos
  {
    hide Inv, Paso, MasLigero, CpuSuelta, EnCpu, Ocupada, SinLaCpu, ConBloque, Salen;
    StepEffect(s, e);
  }

  /** Whether the step blocks the process of a CPU. */
  predicate Frena(s: Estado, e: Evento) {
    (e.Wait? && e.sem < |s.sems| && s.sems[e.sem].valor <= 0) || e.EnviarIO?
  }

  /** A process that blocks is put behind the blocked, with the block its CPU handed back. */
  lemma BlockLaw(s: Estado, e: Evento) returns (q: Proceso)
    requires Inv(s) && Posible(s, e) && Sano(s, e) && Frena(s, e)
    ensures Paso(s, e).Some? && Corre(s, e.soc, q) && Paso(s, e).value.block == s.block + [ConBloque(q, e.men)]
  {
    hide Inv, Paso, MasLigero, CpuSuelta, EnCpu, Ocupada, SinLaCpu, ConBloque, Salen;
    StepEffect(s, e);
    if e.Wait? {
      q :| Bloquea(s, e.soc, e.men, e.cierra, FilaMas(s, e.sem, EnCpu(s, e.soc)), s.disps, Paso(s, e).value, q);
    } else {
      q :| Bloquea(s, e.soc, e.men, e.cierra, s.sems, PedidoMas(s, e.disp, EnCpu(s, e.soc)), Paso(s, e).value, q);
    }
  }

  /** A dispatched process goes to the end of exec, and to the first free CPU. */
  lemma DispatchLaw(s: Estado, e: Evento) returns (c: nat)
    requires Inv(s) && Posible(s, e) && e.Despacha?
    ensures Paso(s, e).Some? && Asigna(s, Paso(s, e).value, c)
  {
    hide Inv, Paso;
    StepEffect(s, e);
    c :| Asigna(s, Paso(s, e).value, c);
  }

  /** Whether the step wakes that process: the first in the line of a semaphore, or the one its device has served. */
  predicate Llama(s: Estado, e: Evento, id: int) {
    match e
    case Signal(_, k) => k < |s.sems| && s.sems[k].procesos != [] && s.sems[k].procesos[0] == id
    case IoTermina(d) => d < |s.disps| && s.disps[d].sirviendo == Some(id)
    case _ => false
  }

  /** A process that is woken, by a signal or by its device, is the last of ready and no longer among the blocked. */
  lemma WakeLaw(s: Estado, e: Evento, id: int) returns (q: Proceso)
    requires Inv(s) && Posible(s, e) && Sano(s, e)
    requires Llama(s, e, id)
    ensures Paso(s, e).Some?
    ensures var t := Paso(s, e).value;
            && q in s.block && q.pcb.id == id && t.listos == s.listos + [q]
            && multiset(t.block) == multiset(s.block) - multiset{q} && forall p :: p in t.block ==> p.pcb.id != id
  {
    hide Inv, Paso, MasLigero, CpuSuelta, EnCpu, Ocupada, SinLaCpu, ConBloque, Salen;
    StepEffect(s, e);
    var t := Paso(s, e).value;
    if e.Signal? {
      q :| Despierta(s, FilaMenos(s, e.sem), s.disps, id, t, q);
    } else {
      q :| Despierta(s, s.sems, Servido(s, e.disp), id, t, q);
    }
    assert t.listos[|s.listos|] == q;
    ReadyIsNotBlocked(t, q);
  }

  lemma ReadyIsNotBlocked(s: Estado, q: Proceso)
    requires Inv(s) && q in s.listos
    ensures forall p :: p in s.block ==> p.pcb.id != q.pcb.id
  {
    hide Junta;
    EnAlguna(s.listos, q.pcb.id);
    EnAlguna(s.block, q.pcb.id);
    assert (Censo(s) + multiset{})[q.pcb.id] <= 1;
  }

  /** The CPU that lets go of its process in a step, and whether it also disconnects. */
  function Suelto(s: Estado, e: Evento): Option<(int, bool)> {
    match e
    case FinQuantum(soc, _, cierra) => Some((soc, cierra))
    case Wait(soc, k, _, cierra) =>
      if k >= |s.sems| then Some((soc, false)) else if s.sems[k].valor <= 0 then Some((soc, cierra)) else None
    case Signal(soc, k) => if k >= |s.sems| then Some((soc, false)) else None
    case EnviarIO(soc, _, _, cierra) => Some((soc, cierra))
    case FinEjecucion(soc, _) => Some((soc, false))
    case VariableInexistente(soc) => Some((soc, false))
    case CpuCae(soc) => Some((soc, true))
    case _ => None
  }

  /** Which CPUs are connected and what they run: a CPU that lets go of its process is free again unless it disconnects,
      and no step touches another one. */
  lemma CpuLaw(s: Estado, e: Evento)
    requires Inv(s) && Posible(s, e) && Sano(s, e) && !e.Despacha? && !e.ProgCierra?
    ensures Paso(s, e).Some?
    ensures var t := Paso(s, e).value;
            if Suelto(s, e).Some? then CpuSuelta(s, Suelto(s, e).value.0, Suelto(s, e).value.1, t)
            else t.cpus == s.cpus + if e.CpuNueva? then [Cpu(e.soc, 0, 0)] else []
  {
    hide Inv, Paso, Posible, Sano, MasLigero, CpuSuelta, EnCpu, Corre, SinLaCpu, ConBloque, Salen, Devuelta, FilaMas, FilaMenos, PedidoMas, Servido;
    StepEffect(s, e);
  }

  // ---- First come, first served ----

  lemma Fifo<T>(q: seq<T>, come: seq<T>, go: seq<T>, mid: seq<T>, comeRest: seq<T>, goRest: seq<T>, last: seq<T>)
    requires q + come == go + mid && mid + comeRest == goRest + last
    ensures q + (come + comeRest) == (go + goRest) + last
  {
    assert q + (come + comeRest) == (q + come) + comeRest;
    assert (go + mid) + comeRest == go + (mid + comeRest);
    assert go + (goRest + last) == (go + goRest) + last;
  }

  /** Who joined ready in a step, as the queue shows it, and who was dispatched, as exec shows it. */
  function Llega(s: Estado, e: Evento): seq<Proceso>
    requires Posible(s, e) && Paso(s, e).Some?
  {
    var (q, k) := (Paso(s, e).value.listos, |s.listos| - if e.Despacha? then 1 else 0);
    if 0 <= k <= |q| then q[k..] else []
  }

  function Parte(s: Estado, e: Evento): seq<Proceso>
    requires Posible(s, e) && Paso(s, e).Some?
  {
    var q := Paso(s, e).value.exec;
    if e.Despacha? && q != [] then [q[|q| - 1]] else []
  }

  function Llegadas(s: Estado, evs: seq<Evento>): seq<Proceso>
    requires Corrida(s, evs)
    decreases |evs|
  {
    if evs == [] || Paso(s, evs[0]).None? then [] else Llega(s, evs[0]) + Llegadas(Paso(s, evs[0]).value, evs[1..])
  }

  function Partidas(s: Estado, evs: seq<Evento>): seq<Proceso>
    requires Corrida(s, evs)
    decreases |evs|
  {
    if evs == [] || Paso(s, evs[0]).None? then [] else Parte(s, evs[0]) + Partidas(Paso(s, evs[0]).value, evs[1..])
  }

  function Despachos(evs: seq<Evento>): nat {
    if evs == [] then 0 else (if evs[0].Despacha? then 1 else 0) + Despachos(evs[1..])
  }

  lemma ReadyStep(s: Estado, e: Evento)
    requires Inv(s) && Posible(s, e) && Sano(s, e)
    ensures Paso(s, e).Some? && s.listos + Llega(s, e) == Parte(s, e) + Paso(s, e).value.listos
    ensures |Parte(s, e)| == if e.Despacha? then 1 else 0
  {
    hide Inv, Paso, Llegan, CpuSuelta;
    var xs := ReadyLaw(s, e);
    assert Paso(s, e).value.listos[|s.listos| - (if e.Despacha? then 1 else 0)..] == xs;
    if e.Despacha? {
      var c := DispatchLaw(s, e);
      assert s.listos == [s.listos[0]] + s.listos[1..];
    }
  }

  /** Ready is served first come, first served: those that were there and then those that came are, in that order,
      those that were dispatched and then those that are there. */
  lemma {:induction false} ReadyFifo(s: Estado, evs: seq<Evento>)
    requires Inv(s) && Corrida(s, evs) && Tras(s, evs).Some?
    ensures s.listos + Llegadas(s, evs) == Partidas(s, evs) + Tras(s, evs).value.listos
    ensures |Partidas(s, evs)| == Despachos(evs)
    decreases |evs|
  {
    hide Inv, Paso, Posible, Sano, Llega, Parte;
    if evs == [] {
    } else {
      StepKeeps(s, evs[0]);
      ReadyStep(s, evs[0]);
      var t := Paso(s, evs[0]).value;
      ReadyFifo(t, evs[1..]);
      Fifo(s.listos, Llega(s, evs[0]), Parte(s, evs[0]), t.listos, Llegadas(t, evs[1..]), Partidas(t, evs[1..]),
           Tras(s, evs).value.listos);
    }
  }

  /** Round robin: the process at position `i` of ready has been dispatched after `i + 1` dispatches, and not before. */
  lemma RoundRobin(s: Estado, evs: seq<Evento>, i: nat)
    requires Inv(s) && Corrida(s, evs) && Tras(s, evs).Some? && i < |s.listos|
    ensures |Partidas(s, evs)| == Despachos(evs)
    ensures var n := Despachos(evs);
            if n > i then Partidas(s, evs)[i] == s.listos[i]
            else i - n < |Tras(s, evs).value.listos| && Tras(s, evs).value.listos[i - n] == s.listos[i]
  {
    hide Inv, Corrida, Tras, Llegadas, Partidas, Despachos;
    ReadyFifo(s, evs);
    assert (s.listos + Llegadas(s, evs))[i] == s.listos[i];
    assert (Partidas(s, evs) + Tras(s, evs).value.listos)[i] == s.listos[i];
  }

  /** Who was woken from semaphore `k` in a step, as ready shows it. */
  function Despierto(s: Estado, e: Evento, k: nat): seq<int>
    requires Posible(s, e) && Paso(s, e).Some?
  {
    var q := Paso(s, e).value.listos;
    if e.Signal? && e.sem == k && k < |s.sems| && s.sems[k].procesos != [] && q != [] then [q[|q| - 1].pcb.id] else []
  }

  function Esperas(s: Estado, evs: seq<Evento>, k: nat): seq<int>
    requires Corrida(s, evs)
    decreases |evs|
  {
    if evs == [] || Paso(s, evs[0]).None? then [] else Espera(s, evs[0], k) + Esperas(Paso(s, evs[0]).value, evs[1..], k)
  }

  function Despiertos(s: Estado, evs: seq<Evento>, k: nat): seq<int>
    requires Corrida(s, evs)
    decreases |evs|
  {
    if evs == [] || Paso(s, evs[0]).None? then [] else Despierto(s, evs[0], k) + Despiertos(Paso(s, evs[0]).value, evs[1..], k)
  }

  lemma LineStep(s: Estado, e: Evento, k: nat)
    requires Inv(s) && Posible(s, e) && Sano(s, e) && k < |s.sems|
    ensures Paso(s, e).Some? && |Paso(s, e).value.sems| == |s.sems|
    ensures s.sems[k].procesos + Espera(s, e, k) == Despierto(s, e, k) + Paso(s, e).value.sems[k].procesos
  {
    hide Inv, Paso, Espera;
    LineLaw(s, e, k);
    var x := s.sems[k].procesos;
    if e.Signal? && e.sem == k && x != [] {
      var q := WakeLaw(s, e, x[0]);
      assert Paso(s, e).value.listos[|s.listos|] == q;
      assert x == [x[0]] + x[1..] && Espera(s, e, k) == [] by { NoWait(s, e, k); }
    }
  }

  lemma NoWait(s: Estado, e: Evento, k: nat)
    requires !e.Wait?
    ensures Espera(s, e, k) == []
  {
  }

  /** A semaphore wakes in the order in which processes blocked on it. */
  lemma {:induction false} LineFifo(s: Estado, evs: seq<Evento>, k: nat)
    requires Inv(s) && Corrida(s, evs) && Tras(s, evs).Some? && k < |s.sems|
    ensures |Tras(s, evs).value.sems| == |s.sems|
    ensures s.sems[k].procesos + Esperas(s, evs, k) == Despiertos(s, evs, k) + Tras(s, evs).value.sems[k].procesos
    decreases |evs|
  {
    hide Inv, Paso, Posible, Sano, Espera, Despierto;
    if evs != [] {
      StepKeeps(s, evs[0]);
      LineStep(s, evs[0], k);
      var t := Paso(s, evs[0]).value;
      LineFifo(t, evs[1..], k);
      Fifo(s.sems[k].procesos, Espera(s, evs[0], k), Despierto(s, evs[0], k), t.sems[k].procesos,
           Esperas(t, evs[1..], k), Despiertos(t, evs[1..], k), Tras(s, evs).value.sems[k].procesos);
    }
  }

  /** Whom device `d` began to serve in a step. */
  function Sirve(s: Estado, e: Evento, d: nat): seq<int>
    requires Posible(s, e) && Paso(s, e).Some?
  {
    var x := Paso(s, e).value.disps;
    if e == IoToma(d) && d < |x| && x[d].sirviendo.Some? then [x[d].sirviendo.value] else []
  }

  function Peticiones(s: Estado, evs: seq<Evento>, d: nat): seq<int>
    requires Corrida(s, evs)
    decreases |evs|
  {
    if evs == [] || Paso(s, evs[0]).None? then [] else Pide(s, evs[0], d) + Peticiones(Paso(s, evs[0]).value, evs[1..], d)
  }

  function Atendidos(s: Estado, evs: seq<Evento>, d: nat): seq<int>
    requires Corrida(s, evs)
    decreases |evs|
  {
    if evs == [] || Paso(s, evs[0]).None? then [] else Sirve(s, evs[0], d) + Atendidos(Paso(s, evs[0]).value, evs[1..], d)
  }

  lemma DeviceStep(s: Estado, e: Evento, d: nat)
    requires Inv(s) && Posible(s, e) && Sano(s, e) && d < |s.disps|
    ensures Paso(s, e).Some? && |Paso(s, e).value.disps| == |s.disps|
    ensures s.disps[d].procesos + Pide(s, e, d) == Sirve(s, e, d) + Paso(s, e).value.disps[d].procesos
  {
    hide Inv, Paso;
    DeviceLaw(s, e, d);
    var x := s.disps[d].procesos;
    if e == IoToma(d) {
      assert x == [x[0]] + x[1..];
    }
  }

  /** A device serves its requests in the order in which they were made. */
  lemma {:induction false} DeviceFifo(s: Estado, evs: seq<Evento>, d: nat)
    requires Inv(s) && Corrida(s, evs) && Tras(s, evs).Some? && d < |s.disps|
    ensures |Tras(s, evs).value.disps| == |s.disps|
    ensures s.disps[d].procesos + Peticiones(s, evs, d) == Atendidos(s, evs, d) + Tras(s, evs).value.disps[d].procesos
    decreases |evs|
  {
    hide Inv, Paso, Posible, Sano, Pide, Sirve;
    if evs != [] {
      StepKeeps(s, evs[0]);
      DeviceStep(s, evs[0], d);
      var t := Paso(s, evs[0]).value;
      DeviceFifo(t, evs[1..], d);
      Fifo(s.disps[d].procesos, Pide(s, evs[0], d), Sirve(s, evs[0], d), t.disps[d].procesos,
           Peticiones(t, evs[1..], d), Atendidos(t, evs[1..], d), Tras(s, evs).value.disps[d].procesos);
    }
  }

  /** What a step adds to exit, and what it takes out. */
  function Sale(s: Estado, e: Evento): seq<Proceso>
    requires Posible(s, e) && Paso(s, e).Some?
  {
    var (q, k) := (Paso(s, e).value.exit, |s.exit| - if e.Destruye? then 1 else 0);
    if 0 <= k <= |q| then q[k..] else []
  }

  function Destruida(s: Estado, e: Evento): seq<Proceso> {
    if e.Destruye? && s.exit != [] then [s.exit[0]] else []
  }

  function Salidas(s: Estado, evs: seq<Evento>): seq<Proceso>
    requires Corrida(s, evs)
    decreases |evs|
  {
    if evs == [] || Paso(s, evs[0]).None? then [] else Sale(s, evs[0]) + Salidas(Paso(s, evs[0]).value, evs[1..])
  }

  function Destruidas(s: Estado, evs: seq<Evento>): seq<Proceso>
    requires Corrida(s, evs)
    decreases |evs|
  {
    if evs == [] || Paso(s, evs[0]).None? then [] else Destruida(s, evs[0]) + Destruidas(Paso(s, evs[0]).value, evs[1..])
  }

  lemma ExitStep(s: Estado, e: Evento)
    requires Inv(s) && Posible(s, e) && Sano(s, e)
    ensures Paso(s, e).Some? && s.exit + Sale(s, e) == Destruida(s, e) + Paso(s, e).value.exit && Salen(s, e, Sale(s, e))
  {
    hide Inv, Paso, Salen;
    var xs := ExitLaw(s, e);
    assert Paso(s, e).value.exit[|s.exit| - (if e.Destruye? then 1 else 0)..] == xs;
    if e.Destruye? {
      assert s.exit == [s.exit[0]] + s.exit[1..];
    }
  }

  /** Processes are destroyed, and their programs told why, in the order in which they ended, with the reasons they
      ended for. */
  lemma {:induction false} ExitFifo(s: Estado, evs: seq<Evento>)
    requires Inv(s) && Corrida(s, evs) && Tras(s, evs).Some?
    ensures s.exit + Salidas(s, evs) == Destruidas(s, evs) + Tras(s, evs).value.exit
    decreases |evs|
  {
    hide Inv, Paso, Posible, Sano, Sale, Destruida;
    if evs != [] {
      StepKeeps(s, evs[0]);
      ExitStep(s, evs[0]);
      var t := Paso(s, evs[0]).value;
      ExitFifo(t, evs[1..]);
      Fifo(s.exit, Sale(s, evs[0]), Destruida(s, evs[0]), t.exit, Salidas(t, evs[1..]), Destruidas(t, evs[1..]),
           Tras(s, evs).value.exit);
    }
  }
}
