/** The kernel as a step machine: five process queues, the list of CPUs, the counting semaphores, the user
    semaphores and the device queues. One event is one handler, one console command, or one stretch of a
    manager thread between two waits on a counting semaphore. */
module Scheduler {
  import opened Bytes
  import opened Wire

  /** t_pcb_otros */
  datatype Proceso = Proceso(pcb: Pcb, socket: int, peso: int, tipoFin: int)

  /** t_cpu */
  datatype Cpu = Cpu(socCpu: int, socProg: int, idExec: int)

  /** t_semaforo */
  datatype Semaforo = Semaforo(valor: int, procesos: seq<int>)

  /** t_IO: the waiting requests, the counting semaphore over them, and the request being served. */
  datatype Dispositivo = Dispositivo(procesos: seq<int>, cont: nat, sirviendo: Option<int>)

  /** How far a manager thread has got: waiting for its first counting semaphore, holding that token,
      holding both. */
  datatype Fase = Esperando | ConUno | ConDos

  datatype Estado = Estado(
    nuevos: seq<Proceso>, listos: seq<Proceso>, exec: seq<Proceso>, block: seq<Proceso>, exit: seq<Proceso>,
    cpus: seq<Cpu>,
    cantNew: nat, cantReady: nat, cantExit: nat, cantMultiprog: nat, cantLibres: nat,
    sems: seq<Semaforo>, disps: seq<Dispositivo>,   // the dictionaries, their keys numbered
    contador: nat,                                  // _CONTADOR_PROGRAMA
    duenos: multiset<int>,                          // owner of each segment in the memory server
    newReady: Fase, readyExec: Fase, saliendo: bool,
    errores: nat)                                   // ERROR branches taken

  datatype Evento =
    // the program side: `resp` is the new block, or None when memory was refused
    | Admitir(socProg: int, peso: int, resp: Option<Pcb>)
    | ProgCierra(socProg: int)
    // manejador_new_ready
    | TomaNuevo | TomaCupo | NuevoAListo
    // manejador_ready_exec
    | TomaListo | TomaCpu | Despacha
    // manejador_exit
    | TomaSalida | Destruye
    // manejador_IO
    | IoToma(disp: nat) | IoTermina(disp: nat)
    // the CPU side: `men` is the block that comes back, `cierra` the flag of a CPU that is going away
    | CpuNueva(soc: int)
    | CpuCae(soc: int)
    | FinQuantum(soc: int, men: Pcb, cierra: bool)
    | Wait(soc: int, sem: nat, men: Pcb, cierra: bool)
    | Signal(soc: int, sem: nat)
    | EnviarIO(soc: int, disp: nat, men: Pcb, cierra: bool)
    | FinEjecucion(soc: int, tipo: int)
    | VariableInexistente(soc: int)
    // the console
    | CambiarMultiprog(n: int)

  const PESO_TOPE := 1_000_000
  const SIN_FIN := -1
  const VAR_INEX := 69
  const SEM_INEX := 70
  const SEGMEN_FAULT := 353

  // ---- Searching queues and lists ----

  datatype Busca = PorId(id: int) | PorSocket(soc: int) | PorPeso(peso: int)

  predicate Cumple(p: Proceso, b: Busca) {
    match b
    case PorId(id) => p.pcb.id == id
    case PorSocket(soc) => p.socket == soc
    case PorPeso(peso) => p.peso == peso
  }

  /** The first entry that fits, or the length of the queue. */
  function Primero(q: seq<Proceso>, b: Busca): (i: nat)
    ensures i <= |q| && (i < |q| ==> Cumple(q[i], b))
    ensures forall j :: 0 <= j < i ==> !Cumple(q[j], b)
  {
    if q == [] || Cumple(q[0], b) then 0 else 1 + Primero(q[1..], b)
  }

  /** What popping and pushing back leaves when it stops at entry `i`. */
  function Girada(q: seq<Proceso>, i: nat): seq<Proceso>
    requires i < |q|
  {
    q[i + 1..] + q[..i]
  }

  datatype BuscaCpu = PorSocCpu(soc: int) | Libre | PorProg(prog: int)

  predicate CumpleCpu(c: Cpu, b: BuscaCpu) {
    match b
    case PorSocCpu(soc) => c.socCpu == soc
    case Libre => c.idExec == 0
    case PorProg(prog) => c.socProg == prog
  }

  function Primera(cs: seq<Cpu>, b: BuscaCpu): (i: nat)
    ensures i <= |cs| && (i < |cs| ==> CumpleCpu(cs[i], b))
    ensures forall j :: 0 <= j < i ==> !CumpleCpu(cs[j], b)
  {
    if cs == [] || CumpleCpu(cs[0], b) then 0 else 1 + Primera(cs[1..], b)
  }

  /** list_remove_by_condition */
  function SinCpu(cs: seq<Cpu>, i: nat): seq<Cpu>
    requires i < |cs|
  {
    cs[..i] + cs[i + 1..]
  }

  /** The first loop of `get_peso_min`: the least weight, if below the cap. */
  function PesoMin(q: seq<Proceso>): (r: int)
    ensures r <= PESO_TOPE && forall p :: p in q ==> r <= p.peso
    ensures r == PESO_TOPE || exists p :: p in q && p.peso == r
  {
    if q == [] then PESO_TOPE
    else
      var n := |q| - 1;
      var r := PesoMin(q[..n]);
      assert q == q[..n] + [q[n]];
      if r > q[n].peso then q[n].peso else r
  }

  // ---- What handlers have in common ----

  /** The fields that `recv_actualizar_pcb` takes over. */
  function Actualizado(p: Pcb, men: Pcb): Pcb {
    p.(cantVar := men.cantVar, dirCont := men.dirCont, pc := men.pc)
  }

  /** `get_cpu_soc_cpu_remove` and then `get_pcb_otros_exec` for what that CPU runs. None when either finds
      nothing: the caller follows the null pointer. */
  function Desalojado(s: Estado, soc: int): Option<(Estado, Cpu, Proceso)> {
    var c := Primera(s.cpus, PorSocCpu(soc));
    if c == |s.cpus| then None
    else
      var i := Primero(s.exec, PorId(s.cpus[c].idExec));
      if i == |s.exec| then None
      else Some((s.(cpus := SinCpu(s.cpus, c), exec := Girada(s.exec, i)), s.cpus[c], s.exec[i]))
  }

  function AListos(s: Estado, p: Proceso): Estado {
    s.(listos := s.listos + [p], cantReady := s.cantReady + 1)
  }

  /** pasar_pcb_exit */
  function ASalida(s: Estado, p: Proceso): Estado {
    s.(exit := s.exit + [p], cantExit := s.cantExit + 1, cantMultiprog := s.cantMultiprog + 1)
  }

  function Libera(s: Estado, c: Cpu): Estado {
    s.(cpus := s.cpus + [c.(idExec := 0, socProg := 0)], cantLibres := s.cantLibres + 1)
  }

  /** pasar_pcbBlock_ready */
  function Desbloqueado(s: Estado, id: int): Estado {
    var i := Primero(s.block, PorId(id));
    if i == |s.block| then s.(errores := s.errores + 1)
    else AListos(s.(block := Girada(s.block, i)), s.block[i])
  }

  /** actualizar_pcb_y_bloq */
  function Bloqueado(s: Estado, soc: int, men: Pcb, cierra: bool): Option<(Estado, int)> {
    match Desalojado(s, soc)
    case None => None
    case Some((s1, c, p)) =>
      var s2 := if cierra then s1 else Libera(s1, c);
      Some((s2.(block := s2.block + [p.(pcb := Actualizado(p.pcb, men))]), p.pcb.id))
  }

  /** llamada_erronea and fin_ejecucion */
  function Terminado(s: Estado, soc: int, tipo: int): Option<Estado> {
    match Desalojado(s, soc)
    case None => None
    case Some((s1, c, p)) => Some(Libera(ASalida(s1, p.(tipoFin := tipo)), c))
  }

  /** buscar_pcb: the first process of that connection leaves the queue. */
  function Salido(q: seq<Proceso>, soc: int): (seq<Proceso>, Option<Proceso>) {
    var i := Primero(q, PorSocket(soc));
    if i == |q| then (q, None) else (Girada(q, i), Some(q[i]))
  }

  function ASalidaSi(s: Estado, p: Option<Proceso>): (t: Estado)
    ensures t.sems == s.sems && t.disps == s.disps && t.cpus == s.cpus
  {
    if p.None? then s else ASalida(s, p.value)
  }

  // ---- The handlers ----

  function Admitido(s: Estado, soc: int, peso: int, resp: Option<Pcb>): Estado {
    var id := s.contador + 1;
    match resp
    case None => s.(contador := id)    // the memory server has already dropped what it had granted
    case Some(pcb) =>
      var p := Proceso(pcb.(id := id, cantVar := 0, dirCont := pcb.dirSegStack), soc, peso, SIN_FIN);
      s.(contador := id, nuevos := s.nuevos + [p], cantNew := s.cantNew + 1, duenos := s.duenos[id := s.duenos[id] + 4])
  }

  function SinNuevo(s: Estado, soc: int): Estado {
    var (q, p) := Salido(s.nuevos, soc);
    ASalidaSi(s.(nuevos := q), p)
  }

  function SinListo(s: Estado, soc: int): Estado {
    var (q, p) := Salido(s.listos, soc);
    ASalidaSi(s.(listos := q), p)
  }

  function SinBloqueado(s: Estado, soc: int): Estado {
    var (q, p) := Salido(s.block, soc);
    ASalidaSi(s.(block := q), p)
  }

  function SinEjecutar(s: Estado, soc: int): Estado {
    var (q, p) := Salido(s.exec, soc);
    ASalidaSi(s.(exec := q), p)
  }

  /** mover_pcb_exit */
  function PcbMovido(s: Estado, soc: int): Estado {
    SinEjecutar(SinBloqueado(SinListo(SinNuevo(s, soc), soc), soc), soc)
  }

  /** administrar_prog_cerrado */
  function ProgCerrado(s: Estado, soc: int): Estado {
    var s1 := PcbMovido(s, soc);
    var c := Primera(s1.cpus, PorProg(soc));
    if c == |s1.cpus| then s1 else s1.(cpus := SinCpu(s1.cpus, c))
  }

  /** get_peso_min */
  function MasLiviano(q: seq<Proceso>): (seq<Proceso>, Option<Proceso>) {
    var i := Primero(q, PorPeso(PesoMin(q)));
    if i == |q| then (q, None) else (Girada(q, i), Some(q[i]))
  }

  /** An iteration of `manejador_new_ready` once it has both tokens. */
  function NuevoPasado(s: Estado): Estado {
    var (q, p) := MasLiviano(s.nuevos);
    var s1 := s.(newReady := Esperando, nuevos := q);
    if p.None? then s1.(errores := s.errores + 1) else AListos(s1, p.value)
  }

  /** An iteration of `manejador_ready_exec` once it has both tokens. */
  function Despachado(s: Estado): Option<Estado> {
    var c := Primera(s.cpus, Libre);
    if s.listos == [] then
      Some(s.(readyExec := Esperando, errores := s.errores + 1, cpus := if c == |s.cpus| then s.cpus else SinCpu(s.cpus, c)))
    else if c == |s.cpus| then None
    else
      var p := s.listos[0];
      Some(s.(readyExec := Esperando, listos := s.listos[1..], exec := s.exec + [p],
              cpus := SinCpu(s.cpus, c) + [Cpu(s.cpus[c].socCpu, p.socket, p.pcb.id)]))
  }

  /** An iteration of `manejador_exit` once it has its token. */
  function Destruido(s: Estado): Estado {
    if s.exit == [] then s.(saliendo := false, errores := s.errores + 1)
    else s.(saliendo := false, exit := s.exit[1..], duenos := s.duenos[s.exit[0].pcb.id := 0])
  }

  function IoTomado(s: Estado, d: nat): Option<Estado>
    requires d < |s.disps| && s.disps[d].cont > 0
  {
    var x := s.disps[d];
    if x.procesos == [] then None
    else Some(s.(disps := s.disps[d := Dispositivo(x.procesos[1..], x.cont - 1, Some(x.procesos[0]))]))
  }

  function CpuCaida(s: Estado, soc: int): Option<Estado> {
    var c := Primera(s.cpus, PorSocCpu(soc));
    if c == |s.cpus| then None
    else if s.cpus[c].idExec == 0 then
      if s.cantLibres == 0 then None else Some(s.(cpus := SinCpu(s.cpus, c), cantLibres := s.cantLibres - 1))
    else
      match Desalojado(s, soc)
      case None => None
      case Some((s1, _, p)) => Some(AListos(s1, p))
  }

  function QuantumTerminado(s: Estado, soc: int, men: Pcb, cierra: bool): Option<Estado> {
    match Desalojado(s, soc)
    case None => None
    case Some((s1, c, p)) =>
      if cierra then Some(AListos(s1, p))
      else Some(Libera(AListos(s1, p.(pcb := Actualizado(p.pcb, men))), c))
  }

  function Esperado(s: Estado, soc: int, k: nat, men: Pcb, cierra: bool): Option<Estado> {
    if k >= |s.sems| then Terminado(s, soc, SEM_INEX)
    else
      var x := s.sems[k];
      if x.valor > 0 then Some(s.(sems := s.sems[k := x.(valor := x.valor - 1)]))
      else
        match Bloqueado(s, soc, men, cierra)
        case None => None
        case Some((s1, id)) => Some(s1.(sems := s.sems[k := Semaforo(x.valor - 1, x.procesos + [id])]))
  }

  function Senalado(s: Estado, soc: int, k: nat): Option<Estado> {
    if k >= |s.sems| then Terminado(s, soc, SEM_INEX)
    else
      var x := s.sems[k];
      if x.procesos == [] then Some(s.(sems := s.sems[k := x.(valor := x.valor + 1)]))
      else Some(Desbloqueado(s.(sems := s.sems[k := Semaforo(x.valor + 1, x.procesos[1..])]), x.procesos[0]))
  }

  /** The handler enqueues the request before it looks for the process; a missing device is a null pointer. */
  function Enviado(s: Estado, soc: int, d: nat, men: Pcb, cierra: bool): Option<Estado> {
    var c := Primera(s.cpus, PorSocCpu(soc));
    if d >= |s.disps| || c == |s.cpus| then None
    else
      var x := s.disps[d];
      var y := x.(procesos := x.procesos + [s.cpus[c].idExec], cont := x.cont + 1);
      match Bloqueado(s, soc, men, cierra)
      case None => None
      case Some((s1, _)) => Some(s1.(disps := s.disps[d := y]))
  }

  /** Processes that hold a multiprogramming slot, as `cambiar_multiprog` counts them. */
  function CantProgs(s: Estado): nat {
    |s.listos| + |s.block| + |s.exec|
  }

  function MultiprogCambiado(s: Estado, n: int): Estado {
    var dif := n - (CantProgs(s) + s.cantMultiprog);
    if dif > 0 || -dif <= s.cantMultiprog then s.(cantMultiprog := s.cantMultiprog + dif) else s
  }

  // ---- Steps ----

  predicate Conectada(s: Estado, soc: int) {
    Primera(s.cpus, PorSocCpu(soc)) < |s.cpus|
  }

  /** Whether that CPU is connected and runs a process. */
  predicate Ocupada(s: Estado, soc: int) {
    Conectada(s, soc) && s.cpus[Primera(s.cpus, PorSocCpu(soc))].idExec != 0
  }

  /** The process a busy CPU runs. */
  function EnCpu(s: Estado, soc: int): int
    requires Ocupada(s, soc)
  {
    s.cpus[Primera(s.cpus, PorSocCpu(soc))].idExec
  }

  predicate SinSocket(q: seq<Proceso>, soc: int) {
    forall p :: p in q ==> p.socket != soc
  }

  /** What the environment may do, and when a thread that waits on a counting semaphore can go on. */
  predicate Posible(s: Estado, e: Evento) {
    match e
    case Admitir(soc, peso, _) => soc > 0 && peso <= PESO_TOPE
    case ProgCierra(soc) =>
      // not while it is new, ready or blocked, and one program per connection
      && soc > 0
      && SinSocket(s.nuevos, soc) && SinSocket(s.listos, soc) && SinSocket(s.block, soc)
      && (forall i, j :: 0 <= i < j < |s.exec| && s.exec[i].socket == soc ==> s.exec[j].socket != soc)
    case TomaNuevo => s.newReady == Esperando && s.cantNew > 0
    case TomaCupo => s.newReady == ConUno && s.cantMultiprog > 0
    case NuevoAListo => s.newReady == ConDos
    case TomaListo => s.readyExec == Esperando && s.cantReady > 0
    case TomaCpu => s.readyExec == ConUno && s.cantLibres > 0
    case Despacha => s.readyExec == ConDos
    case TomaSalida => !s.saliendo && s.cantExit > 0
    case Destruye => s.saliendo
    case IoToma(d) => d < |s.disps| && s.disps[d].sirviendo.None? && s.disps[d].cont > 0
    case IoTermina(d) => d < |s.disps| && s.disps[d].sirviendo.Some?
    case CpuNueva(soc) => forall c :: c in s.cpus ==> c.socCpu != soc
    case CpuCae(soc) => Conectada(s, soc) && (Ocupada(s, soc) || s.cantLibres > 0)
    case FinQuantum(soc, _, _) => Conectada(s, soc)
    case Wait(soc, _, _, _) => Conectada(s, soc)
    case Signal(soc, _) => Conectada(s, soc)
    case EnviarIO(soc, _, _, _) => Conectada(s, soc)
    case FinEjecucion(soc, _) => Conectada(s, soc)
    case VariableInexistente(soc) => Conectada(s, soc)
    case CambiarMultiprog(_) => true
  }

  /** Whether the kernel can handle the step: a report that takes a process off its CPU comes from a CPU that runs
      one, and a device that is asked for is configured. */
  predicate Sano(s: Estado, e: Evento) {
    match e
    case FinQuantum(soc, _, _) => Ocupada(s, soc)
    case Wait(soc, k, _, _) => (k < |s.sems| && s.sems[k].valor > 0) || Ocupada(s, soc)
    case Signal(soc, k) => k < |s.sems| || Ocupada(s, soc)
    case EnviarIO(soc, d, _, _) => Ocupada(s, soc) && d < |s.disps|
    case FinEjecucion(soc, _) => Ocupada(s, soc)
    case VariableInexistente(soc) => Ocupada(s, soc)
    case _ => true
  }

  /** One step; None when the kernel follows a null pointer, or puts one in a queue. */
  function Paso(s: Estado, e: Evento): Option<Estado>
    requires Posible(s, e)
  {
    match e
    case Admitir(soc, peso, resp) => Some(Admitido(s, soc, peso, resp))
    case ProgCierra(soc) => Some(ProgCerrado(s, soc))
    case TomaNuevo => Some(s.(newReady := ConUno, cantNew := s.cantNew - 1))
    case TomaCupo => Some(s.(newReady := ConDos, cantMultiprog := s.cantMultiprog - 1))
    case NuevoAListo => Some(NuevoPasado(s))
    case TomaListo => Some(s.(readyExec := ConUno, cantReady := s.cantReady - 1))
    case TomaCpu => Some(s.(readyExec := ConDos, cantLibres := s.cantLibres - 1))
    case Despacha => Despachado(s)
    case TomaSalida => Some(s.(saliendo := true, cantExit := s.cantExit - 1))
    case Destruye => Some(Destruido(s))
    case IoToma(d) => IoTomado(s, d)
    case IoTermina(d) =>
      Some(Desbloqueado(s.(disps := s.disps[d := s.disps[d].(sirviendo := None)]), s.disps[d].sirviendo.value))
    case CpuNueva(soc) => Some(s.(cpus := s.cpus + [Cpu(soc, 0, 0)], cantLibres := s.cantLibres + 1))
    case CpuCae(soc) => CpuCaida(s, soc)
    case FinQuantum(soc, men, cierra) => QuantumTerminado(s, soc, men, cierra)
    case Wait(soc, k, men, cierra) => Esperado(s, soc, k, men, cierra)
    case Signal(soc, k) => Senalado(s, soc, k)
    case EnviarIO(soc, d, men, cierra) => Enviado(s, soc, d, men, cierra)
    case FinEjecucion(soc, tipo) => Terminado(s, soc, tipo)
    case VariableInexistente(soc) => Terminado(s, soc, VAR_INEX)
    case CambiarMultiprog(n) => Some(MultiprogCambiado(s, n))
  }

  /** The kernel as it starts: the degree of multiprogramming, the initial semaphore values and the number
      of devices come from its configuration. */
  function Inicial(multiprog: nat, valores: seq<int>, disps: nat): Estado {
    Estado([], [], [], [], [], [], 0, 0, 0, multiprog, 0,
           seq(|valores|, i requires 0 <= i < |valores| => Semaforo(valores[i], [])),
           seq(disps, i => Dispositivo([], 0, None)),
           0, multiset{}, Esperando, Esperando, false, 0)
  }
}
