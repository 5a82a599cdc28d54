/** Every step keeps the invariant, so every run does. */
module Steps {
  import opened Bytes
  import opened Wire
  import opened Scheduler
  import opened Invariant

  // ---- Manager threads ----

  /** A fresh id with its four segments. */
  lemma IdNuevo(censo: multiset<int>, contador: nat, duenos: multiset<int>)
    requires EnUnaCola(censo, contador) && CuatroSegmentos(duenos, censo)
    ensures var id := contador + 1;
            EnUnaCola(censo + multiset{id}, id) && CuatroSegmentos(duenos[id := duenos[id] + 4], censo + multiset{id})
  {
    var id := contador + 1;
    assert id !in censo;
    var c, d := censo + multiset{id}, duenos[id := duenos[id] + 4];
    forall x
      ensures c[x] <= 1 && d[x] == 4 * c[x]
    {
      assert duenos[x] == 4 * censo[x];
    }
  }

  /** The id the next program gets owns nothing yet. */
  lemma NextIdIsFree(s: Estado)
    requires Inv(s)
    ensures s.contador + 1 !in s.duenos
  {
    hide Junta;
    var censo := Censo(s) + multiset{};
    assert s.duenos[s.contador + 1] == 4 * censo[s.contador + 1];
  }

  lemma NoErrors(s: Estado)
    requires Inv(s)
    ensures s.errores == 0
  {
  }

  lemma ExitIds(s: Estado)
    requires Inv(s)
    ensures forall p :: p in s.exit ==> p.pcb.id != 0
  {
    hide Junta;
    forall p | p in s.exit
      ensures p.pcb.id != 0
    {
      var i :| 0 <= i < |s.exit| && s.exit[i] == p;
      JuntaQuita(s.exit, i, IdDe);
      assert p.pcb.id in Censo(s) + multiset{};
    }
  }

  lemma AdmitirConMemoria(s: Estado, p: Proceso)
    requires Inv(s) && p.pcb.id == s.contador + 1 && p.peso <= PESO_TOPE
    ensures var id := s.contador + 1;
            var t := s.(contador := id, nuevos := s.nuevos + [p], cantNew := s.cantNew + 1);
            Inv(t.(duenos := s.duenos[id := s.duenos[id] + 4]))
  {
    hide Junta;
    var id := s.contador + 1;
    JuntaMas(s.nuevos, p, IdDe);
    IdNuevo(Censo(s) + multiset{}, s.contador, s.duenos);
    assert Censo(s.(nuevos := s.nuevos + [p])) + multiset{} == (Censo(s) + multiset{}) + multiset{id};
  }

  lemma AdmitirSinMemoria(s: Estado)
    requires Inv(s)
    ensures Inv(s.(contador := s.contador + 1))
  {
    hide Junta;
    assert Censo(s.(contador := s.contador + 1)) == Censo(s);
  }

  lemma AdmitirKeeps(s: Estado, soc: int, peso: int, resp: Option<Pcb>)
    requires Inv(s) && peso <= PESO_TOPE
    ensures Inv(Admitido(s, soc, peso, resp))
  {
    hide Inv;
    match resp
    case None => AdmitirSinMemoria(s);
    case Some(pcb) =>
      var id := s.contador + 1;
      AdmitirConMemoria(s, Proceso(pcb.(id := id, cantVar := 0, dirCont := pcb.dirSegStack), soc, peso, SIN_FIN));
  }

  /** The least weight is that of some entry when no weight exceeds the cap. */
  lemma PesoMinFound(q: seq<Proceso>)
    ensures Primero(q, PorPeso(PesoMin(q))) < |q| <==> exists p :: p in q && p.peso <= PESO_TOPE
  {
    var i := Primero(q, PorPeso(PesoMin(q)));
    if i < |q| {
      assert q[i] in q;
    }
    if exists p :: p in q && p.peso <= PESO_TOPE {
      var p :| p in q && p.peso == PesoMin(q);
      var j :| 0 <= j < |q| && q[j] == p;
      assert Cumple(q[j], PorPeso(PesoMin(q)));
    }
  }

  lemma NuevoSale(s: Estado, i: nat)
    requires Inv(s) && s.newReady == ConDos && i < |s.nuevos|
    ensures InvCon(s.(newReady := Esperando, nuevos := Girada(s.nuevos, i)), multiset{s.nuevos[i].pcb.id})
  {
    hide Junta, Primero;
    JuntaQuita(s.nuevos, i, IdDe);
    var s1 := s.(newReady := Esperando, nuevos := Girada(s.nuevos, i));
    assert Censo(s) + multiset{} == Censo(s1) + multiset{s.nuevos[i].pcb.id};
    forall p | p in s1.nuevos
      ensures p.peso <= PESO_TOPE
    {
      assert p in s.nuevos;
    }
  }

  lemma NuevoKeeps(s: Estado)
    requires Inv(s) && s.newReady == ConDos
    ensures Inv(NuevoPasado(s))
  {
    hide Junta, PesoMin;
    assert s.nuevos[0] in s.nuevos;
    PesoMinFound(s.nuevos);
    var i := Primero(s.nuevos, PorPeso(PesoMin(s.nuevos)));
    NuevoSale(s, i);
    AListosKeeps(s.(newReady := Esperando, nuevos := Girada(s.nuevos, i)), s.nuevos[i]);
  }

  lemma {:induction false} AlgunaLibre(cs: seq<Cpu>)
    requires |Junta(cs, LibreDe)| > 0
    ensures exists c :: c in cs && c.idExec == 0
    decreases |cs|
  {
    var n := |cs| - 1;
    if cs[n].idExec == 0 {
      assert cs[n] in cs;
    } else {
      assert Junta(cs, LibreDe) == Junta(cs[..n], LibreDe);
      AlgunaLibre(cs[..n]);
    }
  }

  /** A free CPU is found, because the thread holds the token of one. */
  lemma CpuLibre(cs: seq<Cpu>)
    requires |Junta(cs, LibreDe)| > 0
    ensures Primera(cs, Libre) < |cs|
  {
    hide Junta;
    AlgunaLibre(cs);
    var c :| c in cs && c.idExec == 0;
    var i :| 0 <= i < |cs| && cs[i] == c;
    assert CumpleCpu(cs[i], Libre);
  }

  lemma DespachaCpus(s: Estado, c: nat, soc: int, id: int)
    requires CpusEnOrden(s.exec, s.cpus) && c < |s.cpus| && s.cpus[c].idExec == 0 && id != 0
    ensures var d := Cpu(s.cpus[c].socCpu, soc, id);
            var r := SinCpu(s.cpus, c) + [d];
            && Junta(r, OcupaDe) == Junta(s.cpus, OcupaDe) + multiset{(id, soc)}
            && Junta(r, SocDe) == Junta(s.cpus, SocDe)
            && |Junta(r, LibreDe)| == |Junta(s.cpus, LibreDe)| - 1
            && (forall x :: x in r && x.idExec == 0 ==> x.socProg == 0)
  {
    hide Junta;
    var d := Cpu(s.cpus[c].socCpu, soc, id);
    JuntaQuita(s.cpus, c, OcupaDe);
    JuntaQuita(s.cpus, c, SocDe);
    JuntaQuita(s.cpus, c, LibreDe);
    JuntaMas(SinCpu(s.cpus, c), d, OcupaDe);
    JuntaMas(SinCpu(s.cpus, c), d, SocDe);
    JuntaMas(SinCpu(s.cpus, c), d, LibreDe);
  }

  lemma DespachaColas(s: Estado)
    requires Inv(s) && s.listos != []
    ensures var p := s.listos[0];
            var t := s.(listos := s.listos[1..], exec := s.exec + [p]);
            && Censo(t) == Censo(s) && p.pcb.id != 0
            && Junta(t.exec, ParDe) == Junta(s.exec, ParDe) + multiset{(p.pcb.id, p.socket)}
  {
    hide Junta;
    var p := s.listos[0];
    var t := s.(listos := s.listos[1..], exec := s.exec + [p]);
    JuntaQuita(s.listos, 0, IdDe);
    assert s.listos[1..] + s.listos[..0] == t.listos;
    JuntaMas(s.exec, p, IdDe);
    JuntaMas(s.exec, p, ParDe);
    assert Censo(t) == Censo(s);
    assert p.pcb.id in Censo(s) + multiset{};
  }

  lemma DespachaKeeps(s: Estado)
    requires Inv(s) && s.readyExec == ConDos
    ensures Despachado(s).Some? && Inv(Despachado(s).value)
  {
    hide Junta, SinCpu, LibreDe, OcupaDe, SocDe, ParDe, IdDe, Censo, EnUnaCola, CuatroSegmentos, Repartidos;
    CpuLibre(s.cpus);
    var c, p := Primera(s.cpus, Libre), s.listos[0];
    DespachaColas(s);
    DespachaCpus(s, c, p.socket, p.pcb.id);
    SameQueues(s.(listos := s.listos[1..], exec := s.exec + [p]), Despachado(s).value);
  }

  lemma SameQueues(s: Estado, t: Estado)
    requires s.nuevos == t.nuevos && s.listos == t.listos && s.exec == t.exec && s.block == t.block && s.exit == t.exit
    ensures Censo(s) == Censo(t)
  {
  }

  /** The token of the exit manager promises an entry. */
  lemma SomeoneLeaves(s: Estado)
    requires Inv(s) && s.saliendo
    ensures s.exit != []
  {
    hide Censo, EnUnaCola, CuatroSegmentos, CpusEnOrden, Repartidos;
  }

  lemma DestruyeKeeps(s: Estado)
    requires Inv(s) && s.saliendo
    ensures Inv(Destruido(s))
  {
    hide Junta;
    var id, t := s.exit[0].pcb.id, Destruido(s);
    JuntaQuita(s.exit, 0, IdDe);
    assert s.exit[1..] + s.exit[..0] == s.exit[1..];
    assert Censo(s) + multiset{} == Censo(t) + multiset{} + multiset{id};
    Menos(Censo(s) + multiset{}, Censo(t) + multiset{}, id);
    forall x
      ensures t.duenos[x] == 4 * (Censo(t) + multiset{})[x]
    {
      assert (Censo(s) + multiset{})[x] == (Censo(t) + multiset{})[x] + multiset{id}[x];
    }
  }

  // ---- Devices ----

  lemma IoTomaKeeps(s: Estado, d: nat)
    requires Inv(s) && d < |s.disps| && s.disps[d].sirviendo.None? && s.disps[d].cont > 0
    ensures IoTomado(s, d).Some? && Inv(IoTomado(s, d).value)
  {
    hide Junta;
    var x := s.disps[d];
    var y := Dispositivo(x.procesos[1..], x.cont - 1, Some(x.procesos[0]));
    JuntaCambia(s.disps, d, y, ServidoDe);
    assert x.procesos == [x.procesos[0]] + x.procesos[1..];
    assert ServidoDe(x) == ServidoDe(y);
    Cancela(Junta(s.disps[d := y], ServidoDe), Junta(s.disps, ServidoDe), ServidoDe(x));
    var t := s.(disps := s.disps[d := y]);
    assert Censo(t) == Censo(s);
  }

  lemma IoTerminaKeeps(s: Estado, d: nat)
    requires Inv(s) && d < |s.disps| && s.disps[d].sirviendo.Some?
    ensures Inv(Desbloqueado(s.(disps := s.disps[d := s.disps[d].(sirviendo := None)]), s.disps[d].sirviendo.value))
  {
    hide Junta, Desbloqueado;
    var x := s.disps[d];
    var y, id := x.(sirviendo := None), x.sirviendo.value;
    JuntaCambia(s.disps, d, y, ServidoDe);
    assert ServidoDe(x) == ServidoDe(y) + multiset{id};
    Cancela(Junta(s.disps, ServidoDe), Junta(s.disps[d := y], ServidoDe) + multiset{id}, ServidoDe(y));
    DesbloqueaKeeps(s, id, s.sems, s.disps[d := y]);
  }

  lemma RequestBlocks(s: Estado, soc: int, d: nat, men: Pcb, cierra: bool)
    requires Inv(s) && Ocupada(s, soc) && d < |s.disps|
    ensures Enviado(s, soc, d, men, cierra).Some? && Inv(Enviado(s, soc, d, men, cierra).value)
  {
    hide Junta, Bloqueado, Inv;
    var x := s.disps[d];
    var id := s.cpus[Primera(s.cpus, PorSocCpu(soc))].idExec;
    var y := x.(procesos := x.procesos + [id], cont := x.cont + 1);
    JuntaCambia(s.disps, d, y, ServidoDe);
    assert ServidoDe(y) == ServidoDe(x) + multiset{id};
    Cancela(Junta(s.disps[d := y], ServidoDe), Junta(s.disps, ServidoDe) + multiset{id}, ServidoDe(x));
    ExactDevices(s);
    BloqueadoKeeps(s, soc, men, cierra, s.sems, s.disps[d := y]);
    BloqueadoKeepsLines(s, soc, men, cierra);
  }

  lemma ExactDevices(s: Estado)
    requires Inv(s)
    ensures Exactos(s.sems) && Contados(s.disps)
  {
    hide Junta;
  }

  /** A request is handled, and keeps the invariant, if and only if the device is configured. */
  lemma EnviarIOKeeps(s: Estado, soc: int, d: nat, men: Pcb, cierra: bool)
    requires Inv(s) && Ocupada(s, soc)
    ensures Enviado(s, soc, d, men, cierra).Some? <==> d < |s.disps|
    ensures d < |s.disps| ==> Inv(Enviado(s, soc, d, men, cierra).value)
  {
    hide Inv, Bloqueado;
    if d < |s.disps| {
      RequestBlocks(s, soc, d, men, cierra);
    }
  }

  // ---- User semaphores ----

  lemma SemCambia(sems: seq<Semaforo>, k: nat, y: Semaforo, m: multiset<int>)
    requires Exactos(sems) && k < |sems| && |y.procesos| == Max(0, -y.valor)
    requires multiset(y.procesos) == multiset(sems[k].procesos) + m
    ensures Junta(sems[k := y], EsperaDe) == Junta(sems, EsperaDe) + m
    ensures Exactos(sems[k := y])
  {
    hide Junta;
    JuntaCambia(sems, k, y, EsperaDe);
    Cancela(Junta(sems[k := y], EsperaDe), Junta(sems, EsperaDe) + m, EsperaDe(sems[k]));
  }

  lemma ValueChanges(s: Estado, k: nat, y: Semaforo)
    requires Inv(s) && k < |s.sems| && y.procesos == s.sems[k].procesos && |y.procesos| == Max(0, -y.valor)
    ensures Inv(s.(sems := s.sems[k := y]))
  {
    hide Junta;
    SemCambia(s.sems, k, y, multiset{});
    assert Censo(s.(sems := s.sems[k := y])) == Censo(s);
  }

  lemma ExactValue(s: Estado, k: nat)
    requires Inv(s) && k < |s.sems|
    ensures |s.sems[k].procesos| == Max(0, -s.sems[k].valor) && Exactos(s.sems) && Contados(s.disps)
  {
    hide Junta;
  }

  lemma WaitBlocks(s: Estado, soc: int, k: nat, men: Pcb, cierra: bool)
    requires Inv(s) && k < |s.sems| && s.sems[k].valor <= 0 && Ocupada(s, soc)
    ensures var (x, r) := (s.sems[k], Bloqueado(s, soc, men, cierra));
            && r.Some?
            && Inv(r.value.0.(sems := s.sems[k := Semaforo(x.valor - 1, x.procesos + [r.value.1])]))
  {
    hide Junta, Bloqueado, Inv;
    var x := s.sems[k];
    var id := s.cpus[Primera(s.cpus, PorSocCpu(soc))].idExec;
    var y := Semaforo(x.valor - 1, x.procesos + [id]);
    ExactValue(s, k);
    SemCambia(s.sems, k, y, multiset{id});
    BloqueadoKeeps(s, soc, men, cierra, s.sems[k := y], s.disps);
    BloqueadoKeepsLines(s, soc, men, cierra);
  }

  lemma WaitKeeps(s: Estado, soc: int, k: nat, men: Pcb, cierra: bool)
    requires Inv(s) && Sano(s, Wait(soc, k, men, cierra))
    ensures Esperado(s, soc, k, men, cierra).Some? && Inv(Esperado(s, soc, k, men, cierra).value)
  {
    hide Inv, Bloqueado, Terminado;
    if k >= |s.sems| {
      TerminadoKeeps(s, soc, SEM_INEX);
    } else if s.sems[k].valor > 0 {
      ExactValue(s, k);
      ValueChanges(s, k, s.sems[k].(valor := s.sems[k].valor - 1));
    } else {
      WaitBlocks(s, soc, k, men, cierra);
    }
  }

  lemma BloqueadoKeepsLines(s: Estado, soc: int, men: Pcb, cierra: bool)
    ensures var r := Bloqueado(s, soc, men, cierra);
            r.Some? ==> r.value.0.sems == s.sems && r.value.0.disps == s.disps
  {
  }

  lemma SignalWakes(s: Estado, k: nat)
    requires Inv(s) && k < |s.sems| && s.sems[k].procesos != []
    ensures var x := s.sems[k];
            Inv(Desbloqueado(s.(sems := s.sems[k := Semaforo(x.valor + 1, x.procesos[1..])]), x.procesos[0]))
  {
    hide Junta, Desbloqueado, Inv;
    var x := s.sems[k];
    var y, id := Semaforo(x.valor + 1, x.procesos[1..]), x.procesos[0];
    assert x.procesos == [id] + y.procesos;
    ExactValue(s, k);
    JuntaCambia(s.sems, k, y, EsperaDe);
    Cancela(Junta(s.sems, EsperaDe), Junta(s.sems[k := y], EsperaDe) + multiset{id}, EsperaDe(y));
    DesbloqueaKeeps(s, id, s.sems[k := y], s.disps);
  }

  lemma SignalKeeps(s: Estado, soc: int, k: nat)
    requires Inv(s) && Sano(s, Signal(soc, k))
    ensures Senalado(s, soc, k).Some? && Inv(Senalado(s, soc, k).value)
  {
    hide Inv, Desbloqueado, Terminado;
    if k >= |s.sems| {
      TerminadoKeeps(s, soc, SEM_INEX);
    } else if s.sems[k].procesos == [] {
      ExactValue(s, k);
      ValueChanges(s, k, s.sems[k].(valor := s.sems[k].valor + 1));
    } else {
      SignalWakes(s, k);
    }
  }

  // ---- CPUs ----

  lemma TerminadoKeeps(s: Estado, soc: int, tipo: int)
    requires Inv(s) && Ocupada(s, soc)
    ensures Terminado(s, soc, tipo).Some? && Inv(Terminado(s, soc, tipo).value)
  {
    hide Junta, Inv, InvCon;
    Desaloja(s, soc);
    var (s1, c, p) := Desalojado(s, soc).value;
    ASalidaKeeps(s1, p.(tipoFin := tipo));
    InvEsInvCon(ASalida(s1, p.(tipoFin := tipo)));
    LiberaKeeps(ASalida(s1, p.(tipoFin := tipo)), c, multiset{});
    InvEsInvCon(Libera(ASalida(s1, p.(tipoFin := tipo)), c));
  }

  lemma InvEsInvCon(s: Estado)
    ensures Inv(s) <==> InvCon(s, multiset{})
  {
  }

  lemma FinQuantumKeeps(s: Estado, soc: int, men: Pcb, cierra: bool)
    requires Inv(s) && Ocupada(s, soc)
    ensures QuantumTerminado(s, soc, men, cierra).Some? && Inv(QuantumTerminado(s, soc, men, cierra).value)
  {
    hide Junta, Inv, InvCon;
    Desaloja(s, soc);
    var (s1, c, p) := Desalojado(s, soc).value;
    if cierra {
      AListosKeeps(s1, p);
    } else {
      var q := p.(pcb := Actualizado(p.pcb, men));
      AListosKeeps(s1, q);
      InvEsInvCon(AListos(s1, q));
      LiberaKeeps(AListos(s1, q), c, multiset{});
      InvEsInvCon(Libera(AListos(s1, q), c));
    }
  }

  lemma CpuNuevaKeeps(s: Estado, soc: int)
    requires Inv(s) && forall c :: c in s.cpus ==> c.socCpu != soc
    ensures Inv(Libera(s, Cpu(soc, 0, 0)))
  {
    hide Junta;
    if soc in Junta(s.cpus, SocDe) {
      JuntaBusca(s.cpus, SocDe, soc);
    }
    LiberaKeeps(s, Cpu(soc, 0, 0), multiset{});
  }

  /** A CPU that was free takes its token with it. */
  lemma LibreSeVa(s: Estado, c: nat)
    requires Inv(s) && c < |s.cpus| && s.cpus[c].idExec == 0 && s.cantLibres > 0
    ensures Inv(s.(cpus := SinCpu(s.cpus, c), cantLibres := s.cantLibres - 1))
  {
    hide Junta;
    var t := s.(cpus := SinCpu(s.cpus, c), cantLibres := s.cantLibres - 1);
    JuntaQuita(s.cpus, c, OcupaDe);
    JuntaQuita(s.cpus, c, LibreDe);
    JuntaQuita(s.cpus, c, SocDe);
    Menos(Junta(s.cpus, SocDe), Junta(t.cpus, SocDe), s.cpus[c].socCpu);
    assert Junta(t.cpus, OcupaDe) + multiset{} == Junta(t.cpus, OcupaDe);
    assert Censo(t) == Censo(s);
  }

  lemma CpuCaeKeeps(s: Estado, soc: int)
    requires Inv(s) && Posible(s, CpuCae(soc))
    ensures CpuCaida(s, soc).Some? && Inv(CpuCaida(s, soc).value)
  {
    hide Junta, Inv, InvCon;
    var c := Primera(s.cpus, PorSocCpu(soc));
    if s.cpus[c].idExec == 0 {
      LibreSeVa(s, c);
    } else {
      Desaloja(s, soc);
      AListosKeeps(Desalojado(s, soc).value.0, Desalojado(s, soc).value.2);
    }
  }

  // ---- A program that disconnects while it runs ----

  lemma NoneLeaves(q: seq<Proceso>, soc: int)
    requires SinSocket(q, soc)
    ensures Salido(q, soc) == (q, None)
  {
    forall j | 0 <= j < |q|
      ensures !Cumple(q[j], PorSocket(soc))
    {
      assert q[j] in q;
    }
  }

  /** The CPU assigned to a connection runs a process of that connection, and the other way round. */
  lemma CpuDelPrograma(s: Estado, soc: int)
    requires Inv(s) && soc != 0
    ensures var c, i := Primera(s.cpus, PorProg(soc)), Primero(s.exec, PorSocket(soc));
            && (c == |s.cpus| <==> i == |s.exec|)
            && (c < |s.cpus| ==> s.cpus[c].idExec != 0)
  {
    hide Junta;
    var c, i := Primera(s.cpus, PorProg(soc)), Primero(s.exec, PorSocket(soc));
    if c < |s.cpus| {
      assert s.cpus[c] in s.cpus;
      EnExec(s, c);
    } else if i < |s.exec| {
      var par := (s.exec[i].pcb.id, soc);
      JuntaQuita(s.exec, i, ParDe);
      assert par in ParDe(s.exec[i]);
      JuntaBusca(s.cpus, OcupaDe, par);
    }
  }

  lemma ProgCierraKeeps(s: Estado, soc: int)
    requires Inv(s) && Posible(s, ProgCierra(soc))
    ensures Inv(ProgCerrado(s, soc))
  {
    hide Junta, Inv, InvCon;
    NoneLeaves(s.nuevos, soc);
    NoneLeaves(s.listos, soc);
    NoneLeaves(s.block, soc);
    CpuDelPrograma(s, soc);
    var c, i := Primera(s.cpus, PorProg(soc)), Primero(s.exec, PorSocket(soc));
    if i == |s.exec| {
      assert ProgCerrado(s, soc) == s;
    } else {
      var p := s.exec[i];
      EnExec(s, c);
      assert Primero(s.exec, PorId(s.cpus[c].idExec)) == i;
      Suelta(s, c, i);
      ASalidaKeeps(s.(cpus := SinCpu(s.cpus, c), exec := Girada(s.exec, i)), p);
    }
  }

  // ---- All steps, all runs ----

  /** A CPU that runs nothing has no process to let go of. */
  lemma NothingToRelease(s: Estado, soc: int)
    requires Inv(s) && Conectada(s, soc) && !Ocupada(s, soc)
    ensures Desalojado(s, soc) == None
  {
    hide Junta;
    forall i | 0 <= i < |s.exec|
      ensures s.exec[i].pcb.id != 0
    {
      JuntaQuita(s.exec, i, IdDe);
      assert s.exec[i].pcb.id in Censo(s) + multiset{};
    }
  }

  /** From a state of the invariant a step follows a null pointer if and only if it is a report the kernel cannot
      handle: from a CPU that runs nothing, or for a device that is not configured. Every other step takes no
      ERROR branch and leads to a state of the invariant. */
  lemma StepKeeps(s: Estado, e: Evento)
    requires Inv(s) && Posible(s, e)
    ensures Paso(s, e).Some? <==> Sano(s, e)
    ensures Sano(s, e) ==> Inv(Paso(s, e).value)
  {
    hide Inv, Paso, Posible, Sano;
    if Sano(s, e) {
      SaneStepKeeps(s, e);
    } else {
      InsaneStepDies(s, e);
    }
  }

  lemma InsaneStepDies(s: Estado, e: Evento)
    requires Inv(s) && Posible(s, e) && !Sano(s, e)
    ensures Paso(s, e) == None
  {
    hide Inv, Desalojado;
    match e
    case EnviarIO(soc, _, _, _) =>
      if !Ocupada(s, soc) {
        NothingToRelease(s, soc);
      }
    case FinQuantum(soc, _, _) => NothingToRelease(s, soc);
    case Wait(soc, _, _, _) => NothingToRelease(s, soc);
    case Signal(soc, _) => NothingToRelease(s, soc);
    case FinEjecucion(soc, _) => NothingToRelease(s, soc);
    case VariableInexistente(soc) => NothingToRelease(s, soc);
  }

  /** The two ways the other side gets there. A CPU that goes on after its process was ended, as it does after a
      signal on a missing semaphore or between the two fault reports of one call, kills the kernel with its next
      report; a request for a device that is not configured does so at once. */
  lemma KernelDies(s: Estado, soc: int, k: nat, d: nat, men: Pcb, cierra: bool)
    requires Inv(s) && Ocupada(s, soc) && k >= |s.sems| && d >= |s.disps|
    ensures Enviado(s, soc, d, men, cierra) == None
    ensures var t := Senalado(s, soc, k);
            t.Some? && Conectada(t.value, soc) && QuantumTerminado(t.value, soc, men, cierra) == None
    ensures var t := Terminado(s, soc, SEGMEN_FAULT);
            t.Some? && Conectada(t.value, soc) && Terminado(t.value, soc, SEGMEN_FAULT) == None
  {
    hide Inv, Desalojado, Primero;
    EnviarIOKeeps(s, soc, d, men, cierra);
    TerminadoKeeps(s, soc, SEM_INEX);
    TerminadoKeeps(s, soc, SEGMEN_FAULT);
    EndedIsFree(s, soc, SEM_INEX);
    EndedIsFree(s, soc, SEGMEN_FAULT);
    NothingToRelease(Terminado(s, soc, SEM_INEX).value, soc);
    NothingToRelease(Terminado(s, soc, SEGMEN_FAULT).value, soc);
  }

  lemma EndedIsFree(s: Estado, soc: int, tipo: int)
    requires Inv(s) && Ocupada(s, soc) && Terminado(s, soc, tipo).Some?
    ensures Conectada(Terminado(s, soc, tipo).value, soc) && !Ocupada(Terminado(s, soc, tipo).value, soc)
  {
    hide Junta, Primero;
    Desaloja(s, soc);
    var (s1, c, p) := Desalojado(s, soc).value;
    var t := Terminado(s, soc, tipo).value;
    assert CumpleCpu(t.cpus[|t.cpus| - 1], PorSocCpu(soc));
    forall i | 0 <= i < |s1.cpus|
      ensures t.cpus[i].socCpu != soc
    {
      JuntaQuita(s1.cpus, i, SocDe);
      assert s1.cpus[i] == t.cpus[i] && s1.cpus[i].socCpu in SocDe(s1.cpus[i]);
    }
  }

  lemma SaneStepKeeps(s: Estado, e: Evento)
    requires Inv(s) && Posible(s, e) && Sano(s, e)
    ensures Paso(s, e).Some? && Inv(Paso(s, e).value)
  {
    hide Inv, Admitido, ProgCerrado, NuevoPasado, Despachado, Destruido, IoTomado, Desbloqueado, CpuCaida;
    hide QuantumTerminado, Esperado, Senalado, Enviado, Terminado;
    match e
    case Admitir(soc, peso, resp) => AdmitirKeeps(s, soc, peso, resp);
    case ProgCierra(soc) => ProgCierraKeeps(s, soc);
    case TomaNuevo => TokenKeeps(s, e);
    case TomaCupo => TokenKeeps(s, e);
    case NuevoAListo => NuevoKeeps(s);
    case TomaListo => TokenKeeps(s, e);
    case TomaCpu => TokenKeeps(s, e);
    case Despacha => DespachaKeeps(s);
    case TomaSalida => TokenKeeps(s, e);
    case Destruye => DestruyeKeeps(s);
    case IoToma(d) => IoTomaKeeps(s, d);
    case IoTermina(d) => IoTerminaKeeps(s, d);
    case CpuNueva(soc) => CpuNuevaKeeps(s, soc);
    case CpuCae(soc) => CpuCaeKeeps(s, soc);
    case FinQuantum(soc, men, cierra) => FinQuantumKeeps(s, soc, men, cierra);
    case Wait(soc, k, men, cierra) => WaitKeeps(s, soc, k, men, cierra);
    case Signal(soc, k) => SignalKeeps(s, soc, k);
    case EnviarIO(soc, d, men, cierra) => EnviarIOKeeps(s, soc, d, men, cierra);
    case FinEjecucion(soc, tipo) => TerminadoKeeps(s, soc, tipo);
    case VariableInexistente(soc) => TerminadoKeeps(s, soc, VAR_INEX);
    case CambiarMultiprog(n) => TokenKeeps(s, e);
  }

  /** Steps that only move a token. */
  lemma TokenKeeps(s: Estado, e: Evento)
    requires Inv(s) && Posible(s, e)
    requires e.TomaNuevo? || e.TomaCupo? || e.TomaListo? || e.TomaCpu? || e.TomaSalida? || e.CambiarMultiprog?
    ensures Paso(s, e).Some? && Inv(Paso(s, e).value)
  {
    hide Junta, Primero, Primera, PesoMin;
    assert Censo(Paso(s, e).value) == Censo(s);
  }
}
