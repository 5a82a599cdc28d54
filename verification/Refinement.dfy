/** The call stack as a stack: suspended frames and a current one, and the proof that the bytes of the stack
    segment together with three fields of the control block always spell it out. */
module Refinement {
  import opened Bytes
  import opened Wire
  import opened CallStack

  type int32 = x: int | IsInt32(x)

  datatype Var = Var(nombre: byte, valor: int32)
  datatype Enlace = SinRetorno | ConRetorno(donde: int32)

  /** A suspended call: its variables, where it resumes and where the callee leaves its result. */
  datatype Marco = Marco(vars: seq<Var>, pc: int32, enlace: Enlace)

  /** The suspended frames; the youngest is on top. */
  datatype Susp = Fondo | Sobre(debajo: Susp, marco: Marco)

  /** Suspended frames and current context. */
  datatype Pila = Pila(susp: Susp, vars: seq<Var>, pc: int32, fin: bool)

  // ---- The image of an abstract stack ----

  function EncVars(vs: seq<Var>): (s: seq<byte>)
    ensures |s| == 5 * |vs|
  {
    if vs == [] then []
    else EncVars(vs[..|vs| - 1]) + ([vs[|vs| - 1].nombre] + Encode(vs[|vs| - 1].valor))
  }

  function LenMarco(f: Marco): nat {
    5 * |f.vars| + if f.enlace.SinRetorno? then 8 else 12
  }

  function Len(s: Susp): nat {
    match s
    case Fondo => 0
    case Sobre(debajo, f) => Len(debajo) + LenMarco(f)
  }

  /** Saved context pointer, saved program counter and, for a call with a result, the return address. */
  function EncEnlace(inicio: int, f: Marco): seq<byte> {
    Encode(inicio) + Encode(f.pc) + if f.enlace.SinRetorno? then [] else Encode(f.enlace.donde)
  }

  function EncMarco(inicio: int, f: Marco): (s: seq<byte>)
    ensures |s| == LenMarco(f)
  {
    EncVars(f.vars) + EncEnlace(inicio, f)
  }

  function EncSusp(base: int, s: Susp): (r: seq<byte>)
    ensures |r| == Len(s)
  {
    match s
    case Fondo => []
    case Sobre(debajo, f) => EncSusp(base, debajo) + EncMarco(base + Len(debajo), f)
  }

  function Image(base: int, a: Pila): (r: seq<byte>)
    ensures |r| == Len(a.susp) + 5 * |a.vars|
  {
    EncSusp(base, a.susp) + EncVars(a.vars)
  }

  /** The dictionary of a context that starts at address `dir`; the last definition of a name wins. */
  function Diccionario(vs: seq<Var>, dir: int): map<byte, int> {
    if vs == [] then map[]
    else Diccionario(vs[..|vs| - 1], dir)[Caracter(vs[|vs| - 1].nombre) := dir + 5 * (|vs| - 1)]
  }

  ghost predicate Holds(pila: seq<byte>, img: seq<byte>) {
    |img| <= |pila| && pila[..|img|] == img
  }

  /** The concrete machine spells out the abstract stack. */
  ghost predicate Rep(m: Maquina, a: Pila) {
    var base := m.pcb.dirSegStack;
    && base >= 0 && IsInt32(base + |m.pila|) && PcbFits(m.pcb)
    && m.pcb.dirCont == base + Len(a.susp)
    && m.pcb.cantVar == |a.vars| && m.pcb.pc == a.pc
    && Holds(m.pila, Image(base, a))
    && m.dic == Diccionario(a.vars, m.pcb.dirCont)
    && m.fin == a.fin && !m.segFault && m.avisos == 0
  }

  // ---- Slots ----

  /** Whether `dir` is the address of a variable of the context that starts at `inicio`. */
  predicate IsSlot(inicio: int, vs: seq<Var>, dir: int) {
    inicio <= dir < inicio + 5 * |vs| && (dir - inicio) % 5 == 0
  }

  function SetVar(vs: seq<Var>, inicio: int, dir: int, v: int32): (r: seq<Var>)
    requires IsSlot(inicio, vs, dir)
    ensures |r| == |vs|
  {
    var i := (dir - inicio) / 5;
    vs[i := vs[i].(valor := v)]
  }

  predicate LiveSusp(base: int, s: Susp, dir: int) {
    match s
    case Fondo => false
    case Sobre(debajo, f) => IsSlot(base + Len(debajo), f.vars, dir) || LiveSusp(base, debajo, dir)
  }

  function SetMarco(inicio: int, f: Marco, dir: int, v: int32): (g: Marco)
    requires IsSlot(inicio, f.vars, dir)
    ensures LenMarco(g) == LenMarco(f)
  {
    f.(vars := SetVar(f.vars, inicio, dir, v))
  }

  function SetSusp(base: int, s: Susp, dir: int, v: int32): (r: Susp)
    requires LiveSusp(base, s, dir)
    ensures Len(r) == Len(s)
  {
    match s
    case Sobre(debajo, f) =>
      if IsSlot(base + Len(debajo), f.vars, dir) then Sobre(debajo, SetMarco(base + Len(debajo), f, dir, v))
      else Sobre(SetSusp(base, debajo, dir, v), f)
  }

  /** Whether `dir` is the address of a variable of any frame, suspended or current. */
  predicate Live(base: int, a: Pila, dir: int) {
    IsSlot(base + Len(a.susp), a.vars, dir) || LiveSusp(base, a.susp, dir)
  }

  function SetSlot(base: int, a: Pila, dir: int, v: int32): (b: Pila)
    requires Live(base, a, dir)
    ensures Len(b.susp) == Len(a.susp) && |b.vars| == |a.vars| && b.pc == a.pc && b.fin == a.fin
  {
    if IsSlot(base + Len(a.susp), a.vars, dir) then a.(vars := SetVar(a.vars, base + Len(a.susp), dir, v))
    else a.(susp := SetSusp(base, a.susp, dir, v))
  }

  // ---- The abstract primitives ----

  /** Back to the youngest suspended frame. */
  function Desapilada(a: Pila): Pila
    requires a.susp.Sobre?
  {
    Pila(a.susp.debajo, a.susp.marco.vars, a.susp.marco.pc, a.fin)
  }

  /** One primitive on the abstract stack, of a segment of `cap` bytes. None when it would leave the fault-free
      discipline: no room, a write that is not to a variable, or a frame closed by the wrong primitive. */
  function PasoPila(base: int, cap: nat, a: Pila, op: Op): Option<Pila> {
    var len := Len(a.susp) + 5 * |a.vars|;
    if a.fin then None
    else
      match op
      case Avanzar => if IsInt32(a.pc + 1) then Some(a.(pc := a.pc + 1)) else None
      case Definir(id, basura) =>
        if len + 5 <= cap then Some(a.(vars := a.vars + [Var(Caracter(id), Decode(basura))])) else None
      case Asignar(dir, valor) =>
        if IsInt32(valor) && Live(base, a, dir) then Some(SetSlot(base, a, dir, valor)) else None
      case IrALabel(destino) =>
        if destino == -1 then Some(a.(fin := true)) else if IsInt32(destino) then Some(a.(pc := destino)) else None
      case LlamarSinRetorno(destino) =>
        if len + 8 <= cap && IsInt32(destino)
        then Some(Pila(Sobre(a.susp, Marco(a.vars, a.pc, SinRetorno)), [], destino, false)) else None
      case LlamarConRetorno(destino, donde) =>
        if len + 12 <= cap && IsInt32(destino) && IsInt32(donde)
        then Some(Pila(Sobre(a.susp, Marco(a.vars, a.pc, ConRetorno(donde))), [], destino, false)) else None
      case Finalizar =>
        if a.susp.Fondo? then Some(a.(fin := true))
        else if a.susp.marco.enlace.SinRetorno? then Some(Desapilada(a)) else None
      case Retornar(valor) =>
        if a.susp.Sobre? && a.susp.marco.enlace.ConRetorno? && IsInt32(valor)
           && Live(base, Desapilada(a), a.susp.marco.enlace.donde)
        then Some(SetSlot(base, Desapilada(a), a.susp.marco.enlace.donde, valor)) else None
  }

  function CorrerPila(base: int, cap: nat, a: Pila, ops: seq<Op>): Option<Pila>
    decreases |ops|
  {
    if ops == [] then Some(a)
    else
      match PasoPila(base, cap, a, ops[0])
      case None => None
      case Some(a1) => CorrerPila(base, cap, a1, ops[1..])
  }

  // ---- Images under writes ----

  lemma HoldsExtended(pila: seq<byte>, img: seq<byte>, b: seq<byte>)
    requires Holds(pila, img) && |img| + |b| <= |pila|
    ensures Holds(Splice(pila, |img|, b), img + b)
  {
    assert Splice(pila, |img|, b)[..|img| + |b|] == pila[..|img|] + b;
  }

  lemma HoldsInside(pila: seq<byte>, img: seq<byte>, off: nat, b: seq<byte>)
    requires Holds(pila, img) && off + |b| <= |img|
    ensures Holds(Splice(pila, off, b), Splice(img, off, b))
  {
    assert Splice(pila, off, b)[..|img|] == Splice(pila[..|img|], off, b);
  }

  lemma HoldsPrefix(pila: seq<byte>, x: seq<byte>, y: seq<byte>)
    requires Holds(pila, x + y)
    ensures Holds(pila, x) && pila[|x|..|x| + |y|] == y
  {
    assert (x + y)[..|x|] == x && (x + y)[|x|..] == y;
    assert pila[..|x|] == pila[..|x + y|][..|x|];
    assert pila[|x|..|x| + |y|] == pila[..|x + y|][|x|..];
  }

  lemma SpliceRight(x: seq<byte>, y: seq<byte>, off: nat, b: seq<byte>, at: nat)
    requires off + |b| <= |y| && at == |x| + off
    ensures Splice(x + y, at, b) == x + Splice(y, off, b)
  {
  }

  lemma SpliceLeft(x: seq<byte>, y: seq<byte>, off: nat, b: seq<byte>)
    requires off + |b| <= |x|
    ensures Splice(x + y, off, b) == Splice(x, off, b) + y
  {
  }

  lemma {:induction false} EncVarsSet(vs: seq<Var>, i: nat, v: int32)
    requires i < |vs|
    ensures EncVars(vs[i := vs[i].(valor := v)]) == Splice(EncVars(vs), 5 * i + 1, Encode(v))
    decreases |vs|
  {
    hide Encode;
    var n := |vs| - 1;
    var front, last := EncVars(vs[..n]), [vs[n].nombre] + Encode(vs[n].valor);
    var ws := vs[i := vs[i].(valor := v)];
    if i == n {
      assert ws[..n] == vs[..n];
      SpliceRight(front, last, 1, Encode(v), 5 * n + 1);
      assert Splice(last, 1, Encode(v)) == [vs[n].nombre] + Encode(v);
    } else {
      assert ws[..n] == vs[..n][i := vs[i].(valor := v)];
      EncVarsSet(vs[..n], i, v);
      SpliceLeft(front, last, 5 * i + 1, Encode(v));
    }
  }

  lemma SetVarImage(vs: seq<Var>, inicio: int, dir: int, v: int32)
    requires IsSlot(inicio, vs, dir)
    ensures EncVars(SetVar(vs, inicio, dir, v)) == Splice(EncVars(vs), dir - inicio + 1, Encode(v))
  {
    EncVarsSet(vs, (dir - inicio) / 5, v);
  }

  lemma {:induction false} DiccionarioSet(vs: seq<Var>, i: nat, v: int32, d: int)
    requires i < |vs|
    ensures Diccionario(vs[i := vs[i].(valor := v)], d) == Diccionario(vs, d)
    decreases |vs|
  {
    var n := |vs| - 1;
    var ws := vs[i := vs[i].(valor := v)];
    if i == n {
      assert ws[..n] == vs[..n];
    } else {
      assert ws[..n] == vs[..n][i := vs[i].(valor := v)];
      DiccionarioSet(vs[..n], i, v, d);
    }
  }

  lemma SetMarcoImage(inicio: int, f: Marco, dir: int, v: int32)
    requires IsSlot(inicio, f.vars, dir)
    ensures EncMarco(inicio, SetMarco(inicio, f, dir, v)) == Splice(EncMarco(inicio, f), dir - inicio + 1, Encode(v))
  {
    hide Encode;
    SetVarImage(f.vars, inicio, dir, v);
    SpliceLeft(EncVars(f.vars), EncEnlace(inicio, f), dir - inicio + 1, Encode(v));
  }

  lemma SetTopImage(base: int, debajo: Susp, f: Marco, dir: int, v: int32)
    requires IsSlot(base + Len(debajo), f.vars, dir)
    ensures var s, g := Sobre(debajo, f), SetMarco(base + Len(debajo), f, dir, v);
            EncSusp(base, Sobre(debajo, g)) == Splice(EncSusp(base, s), dir - base + 1, Encode(v))
  {
    hide Encode, EncVars, EncEnlace, EncMarco, Splice;
    var inicio := base + Len(debajo);
    SetMarcoImage(inicio, f, dir, v);
    SpliceRight(EncSusp(base, debajo), EncMarco(inicio, f), dir - inicio + 1, Encode(v), dir - base + 1);
  }

  lemma EncSuspSobre(base: int, debajo: Susp, f: Marco)
    ensures EncSusp(base, Sobre(debajo, f)) == EncSusp(base, debajo) + EncMarco(base + Len(debajo), f)
  {
    hide EncMarco;
  }

  lemma SetDeeperImage(base: int, debajo: Susp, otra: Susp, f: Marco, off: nat, b: seq<byte>)
    requires Len(otra) == Len(debajo) && off + |b| <= Len(debajo)
    requires EncSusp(base, otra) == Splice(EncSusp(base, debajo), off, b)
    ensures EncSusp(base, Sobre(otra, f)) == Splice(EncSusp(base, Sobre(debajo, f)), off, b)
  {
    hide EncSusp, EncMarco, Splice;
    EncSuspSobre(base, debajo, f);
    EncSuspSobre(base, otra, f);
    SpliceLeft(EncSusp(base, debajo), EncMarco(base + Len(debajo), f), off, b);
  }

  /** A write to a variable of a suspended frame, at any depth, changes its four bytes in the image. */
  lemma {:induction false} SetSuspImage(base: int, s: Susp, dir: int, v: int32)
    requires LiveSusp(base, s, dir)
    ensures base <= dir && dir - base + 5 <= Len(s)
    ensures EncSusp(base, SetSusp(base, s, dir, v)) == Splice(EncSusp(base, s), dir - base + 1, Encode(v))
  {
    hide Encode, EncVars, EncEnlace, EncMarco, EncSusp, Splice;
    match s
    case Sobre(debajo, f) =>
      if IsSlot(base + Len(debajo), f.vars, dir) {
        SetTopImage(base, debajo, f, dir, v);
      } else {
        SetSuspImage(base, debajo, dir, v);
        SetDeeperImage(base, debajo, SetSusp(base, debajo, dir, v), f, dir - base + 1, Encode(v));
      }
  }

  lemma SetSlotImage(base: int, a: Pila, dir: int, v: int32)
    requires Live(base, a, dir)
    ensures base <= dir && dir - base + 5 <= |Image(base, a)|
    ensures Image(base, SetSlot(base, a, dir, v)) == Splice(Image(base, a), dir - base + 1, Encode(v))
  {
    hide Encode, EncVars, EncEnlace, EncMarco, EncSusp, Splice;
    var inicio := base + Len(a.susp);
    if IsSlot(inicio, a.vars, dir) {
      SetVarImage(a.vars, inicio, dir, v);
      SpliceRight(EncSusp(base, a.susp), EncVars(a.vars), dir - inicio + 1, Encode(v), dir - base + 1);
    } else {
      SetSuspImage(base, a.susp, dir, v);
      SpliceLeft(EncSusp(base, a.susp), EncVars(a.vars), dir - base + 1, Encode(v));
    }
  }

  lemma SetSlotDiccionario(base: int, a: Pila, dir: int, v: int32, d: int)
    requires Live(base, a, dir)
    ensures Diccionario(SetSlot(base, a, dir, v).vars, d) == Diccionario(a.vars, d)
  {
    var inicio := base + Len(a.susp);
    if IsSlot(inicio, a.vars, dir) {
      DiccionarioSet(a.vars, (dir - inicio) / 5, v, d);
    }
  }

  // ---- Index coherence ----

  /** Scanning the name bytes of a context gives its dictionary. */
  lemma {:induction false} ScanIsDiccionario(pila: seq<byte>, pre: seq<byte>, vs: seq<Var>, dir: int)
    requires Holds(pila, pre + EncVars(vs))
    ensures vs != [] ==> |pre| + 5 * (|vs| - 1) < |pila|
    ensures Escaneo(pila, |pre|, dir, |vs|) == Diccionario(vs, dir)
    decreases |vs|
  {
    hide Encode;
    if vs != [] {
      var n := |vs| - 1;
      var last := [vs[n].nombre] + Encode(vs[n].valor);
      assert pre + EncVars(vs) == (pre + EncVars(vs[..n])) + last;
      HoldsPrefix(pila, pre + EncVars(vs[..n]), last);
      ScanIsDiccionario(pila, pre, vs[..n], dir);
      assert pila[|pre| + 5 * n] == last[0];
    }
  }

  /** In a machine that spells out a stack, the dictionary is what a scan of the bytes would rebuild,
      so rebuilding it changes nothing. */
  lemma IndexCoherent(m: Maquina, a: Pila)
    requires Rep(m, a)
    ensures Legible(m) && m.dic == Indice(m) && Regenerada(m) == Some(m)
  {
    hide Encode, EncVars, EncSusp;
    ScanIsDiccionario(m.pila, EncSusp(m.pcb.dirSegStack, a.susp), a.vars, m.pcb.dirCont);
  }

  // ---- One primitive at a time ----

  lemma TopeIsImageEnd(m: Maquina, a: Pila)
    requires Rep(m, a)
    ensures Tope(m) == |Image(m.pcb.dirSegStack, a)| <= |m.pila|
  {
  }

  lemma Pushed(m: Maquina, a: Pila, id: byte, basura: Palabra)
    requires Rep(m, a) && |Image(m.pcb.dirSegStack, a)| + 5 <= |m.pila|
    ensures Rep(Definida(m, id, basura), a.(vars := a.vars + [Var(Caracter(id), Decode(basura))]))
  {
    hide Encode, Decode;
    var base, v := m.pcb.dirSegStack, Var(Caracter(id), Decode(basura));
    var b, vs := [Caracter(id)] + basura, a.vars + [v];
    TopeIsImageEnd(m, a);
    HoldsExtended(m.pila, Image(base, a), b);
    EncodeDecode(basura);
    assert vs[..|a.vars|] == a.vars && vs[|a.vars|] == v;
    assert EncVars(vs) == EncVars(a.vars) + b;
    assert EncSusp(base, a.susp) + (EncVars(a.vars) + b) == Image(base, a) + b;
  }

  lemma DefinirRefines(m: Maquina, a: Pila, id: byte, basura: Palabra)
    requires Rep(m, a)
    ensures var r := PasoPila(m.pcb.dirSegStack, |m.pila|, a, Definir(id, basura));
            r.Some? ==> Rep(Definida(m, id, basura), r.value)
  {
    hide Encode, Decode, Rep, Definida, SetSlot, Live;
    if PasoPila(m.pcb.dirSegStack, |m.pila|, a, Definir(id, basura)).Some? {
      Pushed(m, a, id, basura);
    }
  }

  lemma SetSlotRefines(m: Maquina, a: Pila, dir: int, v: int32)
    requires Rep(m, a) && Live(m.pcb.dirSegStack, a, dir)
    ensures var off := dir - m.pcb.dirSegStack + 1;
            InRange(m, off, 4) && Rep(Escribir(m, off, Encode(v)), SetSlot(m.pcb.dirSegStack, a, dir, v))
  {
    hide Encode;
    var base := m.pcb.dirSegStack;
    SetSlotImage(base, a, dir, v);
    HoldsInside(m.pila, Image(base, a), dir - base + 1, Encode(v));
    SetSlotDiccionario(base, a, dir, v, m.pcb.dirCont);
  }

  /** The saved context, in the bytes: pointer, program counter. */
  lemma PreservadoHolds(m: Maquina, a: Pila)
    requires Rep(m, a) && |Image(m.pcb.dirSegStack, a)| + 8 <= |m.pila|
    ensures var n := Preservado(m);
            && n.pcb == m.pcb && !n.segFault && n.avisos == 0 && n.fin == m.fin && |n.pila| == |m.pila|
            && Holds(n.pila, Image(m.pcb.dirSegStack, a) + (Encode(m.pcb.dirCont) + Encode(m.pcb.pc)))
  {
    hide Encode;
    var img := Image(m.pcb.dirSegStack, a);
    var x, y := Encode(m.pcb.dirCont), Encode(m.pcb.pc);
    TopeIsImageEnd(m, a);
    HoldsExtended(m.pila, img, x);
    HoldsExtended(Splice(m.pila, |img|, x), img + x, y);
    assert (img + x) + y == img + (x + y);
  }

  lemma PushedImage(base: int, a: Pila, f: Marco, destino: int32)
    requires f.vars == a.vars
    ensures Image(base, Pila(Sobre(a.susp, f), [], destino, false)) == Image(base, a) + EncEnlace(base + Len(a.susp), f)
  {
    hide Encode;
    var x, y, z := EncSusp(base, a.susp), EncVars(a.vars), EncEnlace(base + Len(a.susp), f);
    assert x + (y + z) + [] == (x + y) + z;
  }

  lemma LlamarSinRefines(m: Maquina, a: Pila, destino: int)
    requires Rep(m, a)
    ensures var r := PasoPila(m.pcb.dirSegStack, |m.pila|, a, Op.LlamarSinRetorno(destino));
            r.Some? ==> Rep(LlamadaSin(m, destino), r.value)
  {
    hide Encode;
    var r := PasoPila(m.pcb.dirSegStack, |m.pila|, a, Op.LlamarSinRetorno(destino));
    if r.Some? {
      PreservadoHolds(m, a);
      PushedImage(m.pcb.dirSegStack, a, Marco(a.vars, a.pc, SinRetorno), destino);
      var x := Encode(m.pcb.dirCont) + Encode(m.pcb.pc);
      assert x + [] == x;
    }
  }

  /** The return address goes behind the saved context. */
  lemma LlamadaConHolds(m: Maquina, a: Pila, destino: int32, donde: int32)
    requires Rep(m, a) && |Image(m.pcb.dirSegStack, a)| + 12 <= |m.pila|
    ensures var n, img := LlamadaCon(m, destino, donde), Image(m.pcb.dirSegStack, a);
            && n.pcb == m.pcb.(cantVar := 0, pc := destino, dirCont := m.pcb.dirSegStack + |img| + 12)
            && n.dic == map[] && !n.segFault && n.avisos == 0 && n.fin == m.fin && |n.pila| == |m.pila|
            && Holds(n.pila, img + (Encode(m.pcb.dirCont) + Encode(m.pcb.pc) + Encode(donde)))
  {
    hide Encode, Image, Diccionario, Preservado;
    PreservadoHolds(m, a);
    TopeIsImageEnd(m, a);
    var img, x := Image(m.pcb.dirSegStack, a), Encode(m.pcb.dirCont) + Encode(m.pcb.pc);
    HoldsExtended(Preservado(m).pila, img + x, Encode(donde));
    assert (img + x) + Encode(donde) == img + (x + Encode(donde));
  }

  lemma LlamarConRefines(m: Maquina, a: Pila, destino: int, donde: int)
    requires Rep(m, a)
    ensures var r := PasoPila(m.pcb.dirSegStack, |m.pila|, a, Op.LlamarConRetorno(destino, donde));
            r.Some? ==> Rep(LlamadaCon(m, destino, donde), r.value)
  {
    hide Encode, EncVars, EncSusp, Splice, LlamadaCon, Holds;
    var r := PasoPila(m.pcb.dirSegStack, |m.pila|, a, Op.LlamarConRetorno(destino, donde));
    if r.Some? {
      LlamadaConHolds(m, a, destino, donde);
      PushedImage(m.pcb.dirSegStack, a, Marco(a.vars, a.pc, ConRetorno(donde)), destino);
    }
  }

  /** Bytes taken by the linkage of a frame. */
  function LenEnlace(f: Marco): nat {
    if f.enlace.SinRetorno? then 8 else 12
  }

  lemma EnlaceLen(inicio: int, f: Marco)
    ensures |EncEnlace(inicio, f)| == LenEnlace(f)
  {
    hide Encode;
  }

  lemma ImageSplit(base: int, a: Pila)
    requires a.susp.Sobre?
    ensures Image(base, a)
         == (Image(base, Desapilada(a)) + EncEnlace(base + Len(a.susp.debajo), a.susp.marco)) + EncVars(a.vars)
  {
    hide Encode, EncVars, EncEnlace;
    var f := a.susp.marco;
    var w, x := EncSusp(base, a.susp.debajo), EncVars(f.vars);
    var y, z := EncEnlace(base + Len(a.susp.debajo), f), EncVars(a.vars);
    assert (w + (x + y)) + z == ((w + x) + y) + z;
  }

  /** The bytes under the current context are the suspended stack and then the linkage. */
  lemma LinkageHeld(m: Maquina, a: Pila)
    requires Rep(m, a) && a.susp.Sobre?
    ensures var base := m.pcb.dirSegStack;
            var x, y := Image(base, Desapilada(a)), EncEnlace(base + Len(a.susp.debajo), a.susp.marco);
            Holds(m.pila, x) && |x| + |y| == Len(a.susp) && m.pila[|x|..|x| + |y|] == y
  {
    hide Encode, EncVars, EncEnlace, EncSusp, Image, Holds, Diccionario;
    var base, f := m.pcb.dirSegStack, a.susp.marco;
    var x, y, z := Image(base, Desapilada(a)), EncEnlace(base + Len(a.susp.debajo), f), EncVars(a.vars);
    ImageSplit(base, a);
    EnlaceLen(base + Len(a.susp.debajo), f);
    HoldsPrefix(m.pila, x + y, z);
    HoldsPrefix(m.pila, x, y);
  }

  lemma WordInside(s: seq<byte>, at: nat, n: nat, i: nat, x: int)
    requires at + n <= |s| && i + 4 <= n && IsInt32(x)
    requires s[at..at + n][i..i + 4] == Encode(x)
    ensures IntAt(s, at + i) == x
  {
    hide Encode, Decode;
    SliceOfSlice(s, at, at + n, i, i + 4);
    DecodeEncode(x);
  }

  lemma LinkageWords(inicio: int, f: Marco)
    ensures var y := EncEnlace(inicio, f);
            && |y| == LenEnlace(f) && y[0..4] == Encode(inicio) && y[4..8] == Encode(f.pc)
            && (f.enlace.ConRetorno? ==> y[8..12] == Encode(f.enlace.donde))
  {
    hide Encode;
  }

  /** The linkage under the current context reads back the frame that was suspended: the saved context pointer
      is where that frame starts, strictly below the current one and never below the segment, and dividing
      the distance by the slot size recovers its number of variables. */
  lemma SavedContext(m: Maquina, a: Pila)
    requires Rep(m, a) && a.susp.Sobre?
    ensures var f, base, k := a.susp.marco, m.pcb.dirSegStack, LenEnlace(a.susp.marco);
            var off := m.pcb.dirCont - base - k;
            && InRange(m, off, k)
            && Leido(m, off) == base + Len(a.susp.debajo)
            && Leido(m, off + 4) == f.pc
            && (f.enlace.ConRetorno? ==> Leido(m, off + 8) == f.enlace.donde)
            && base <= Leido(m, off) < m.pcb.dirCont
            && DivC(m.pcb.dirCont - Leido(m, off) - k, 5) == |f.vars|
  {
    hide Encode, EncEnlace, EncMarco, EncVars, EncSusp, Diccionario;
    var base, f := m.pcb.dirSegStack, a.susp.marco;
    var inicio := base + Len(a.susp.debajo);
    var at := |Image(base, Desapilada(a))|;
    LinkageHeld(m, a);
    LinkageWords(inicio, f);
    WordInside(m.pila, at, LenEnlace(f), 0, inicio);
    WordInside(m.pila, at, LenEnlace(f), 4, f.pc);
    if f.enlace.ConRetorno? {
      WordInside(m.pila, at, LenEnlace(f), 8, f.enlace.donde);
    }
  }

  /** Closing a frame with the fields its linkage holds spells out the stack without it. */
  lemma PopRefines(m: Maquina, a: Pila)
    requires Rep(m, a) && a.susp.Sobre?
    ensures var f, base := a.susp.marco, m.pcb.dirSegStack;
            var n := Regenerada(ConPcb(m, |f.vars|, f.pc, base + Len(a.susp.debajo)));
            n.Some? && Rep(n.value, Desapilada(a))
  {
    hide Encode, EncEnlace, EncMarco, EncVars, EncSusp;
    var f, base := a.susp.marco, m.pcb.dirSegStack;
    LinkageHeld(m, a);
    ScanIsDiccionario(m.pila, EncSusp(base, a.susp.debajo), f.vars, base + Len(a.susp.debajo));
  }

  lemma OutermostReadable(m: Maquina, a: Pila)
    requires Rep(m, a) && a.susp.Fondo?
    ensures Imprimible(m)
  {
    hide Encode, Diccionario;
  }

  lemma FinalizarRefines(m: Maquina, a: Pila)
    requires Rep(m, a)
    ensures var r := PasoPila(m.pcb.dirSegStack, |m.pila|, a, Finalizar);
            r.Some? ==> Finalizada(m).Some? && Rep(Finalizada(m).value, r.value)
  {
    hide Encode, Decode, EncSusp, EncVars, EncMarco, EncEnlace, Diccionario, Indice, DivC, IntAt, Live, SetSlot;
    if a.susp.Sobre? {
      SavedContext(m, a);
      PopRefines(m, a);
    } else {
      OutermostReadable(m, a);
    }
  }

  lemma RetornarRefines(m: Maquina, a: Pila, valor: int)
    requires Rep(m, a)
    ensures var r := PasoPila(m.pcb.dirSegStack, |m.pila|, a, Retornar(valor));
            r.Some? ==> Retornada(m, valor).Some? && Rep(Retornada(m, valor).value, r.value)
  {
    hide Encode, Decode, Image, Diccionario, Indice, Legible, Holds, DivC, IntAt, Live, SetSlot, Rep;
    if PasoPila(m.pcb.dirSegStack, |m.pila|, a, Retornar(valor)).Some? {
      var f := a.susp.marco;
      SavedContext(m, a);
      PopRefines(m, a);
      var n := Regenerada(ConPcb(m, |f.vars|, f.pc, m.pcb.dirSegStack + Len(a.susp.debajo))).value;
      SetSlotRefines(n, Desapilada(a), f.enlace.donde, valor);
    }
  }

  lemma AsignarRefines(m: Maquina, a: Pila, dir: int, valor: int)
    requires Rep(m, a)
    ensures var r := PasoPila(m.pcb.dirSegStack, |m.pila|, a, Asignar(dir, valor));
            r.Some? ==> Rep(Asignada(m, dir, valor), r.value)
  {
    hide Encode, Image, Diccionario, Holds, Live, SetSlot;
    if PasoPila(m.pcb.dirSegStack, |m.pila|, a, Asignar(dir, valor)).Some? {
      SetSlotRefines(m, a, dir, valor);
    }
  }

  /** Every primitive commutes with its abstract counterpart. */
  lemma StepRefines(m: Maquina, a: Pila, op: Op)
    requires Rep(m, a)
    ensures var r := PasoPila(m.pcb.dirSegStack, |m.pila|, a, op);
            r.Some? ==> Paso(m, op).Some? && Rep(Paso(m, op).value, r.value)
  {
    hide Encode, EncSusp, EncVars, EncMarco, EncEnlace, Diccionario, Live, SetSlot;
    hide Definida, Asignada, LlamadaSin, LlamadaCon, Finalizada, Retornada;
    match op
    case Avanzar =>
    case Definir(id, basura) => DefinirRefines(m, a, id, basura);
    case Asignar(dir, valor) => AsignarRefines(m, a, dir, valor);
    case IrALabel(_) =>
    case LlamarSinRetorno(destino) => LlamarSinRefines(m, a, destino);
    case LlamarConRetorno(destino, donde) => LlamarConRefines(m, a, destino, donde);
    case Finalizar => FinalizarRefines(m, a);
    case Retornar(valor) => RetornarRefines(m, a, valor);
  }

  /** The bytes and the three fields spell out the abstract stack after any fault-free run, at any depth. */
  lemma {:induction false} RunRefines(m: Maquina, a: Pila, ops: seq<Op>)
    requires Rep(m, a)
    ensures var r := CorrerPila(m.pcb.dirSegStack, |m.pila|, a, ops);
            r.Some? ==> Correr(m, ops).Some? && Rep(Correr(m, ops).value, r.value)
    decreases |ops|
  {
    hide Rep, PasoPila, Paso;
    if ops != [] {
      var r := PasoPila(m.pcb.dirSegStack, |m.pila|, a, ops[0]);
      StepRefines(m, a, ops[0]);
      PasoKeeps(m, ops[0]);
      if r.Some? {
        RunRefines(Paso(m, ops[0]).value, r.value, ops[1..]);
      }
    }
  }

  // ---- Reading variables ----

  function GetVar(vs: seq<Var>, inicio: int, dir: int): int32
    requires IsSlot(inicio, vs, dir)
  {
    vs[(dir - inicio) / 5].valor
  }

  function GetSusp(base: int, s: Susp, dir: int): int32
    requires LiveSusp(base, s, dir)
  {
    match s
    case Sobre(debajo, f) =>
      if IsSlot(base + Len(debajo), f.vars, dir) then GetVar(f.vars, base + Len(debajo), dir)
      else GetSusp(base, debajo, dir)
  }

  /** The value of the variable at an address, in whichever frame it lives. */
  function GetSlot(base: int, a: Pila, dir: int): int32
    requires Live(base, a, dir)
  {
    if IsSlot(base + Len(a.susp), a.vars, dir) then GetVar(a.vars, base + Len(a.susp), dir)
    else GetSusp(base, a.susp, dir)
  }

  lemma {:induction false} SetGetSusp(base: int, s: Susp, dir: int)
    requires LiveSusp(base, s, dir)
    ensures SetSusp(base, s, dir, GetSusp(base, s, dir)) == s
  {
    if !IsSlot(base + Len(s.debajo), s.marco.vars, dir) {
      SetGetSusp(base, s.debajo, dir);
    }
  }

  lemma GetSetVar(vs: seq<Var>, inicio: int, dir: int, v: int32, otra: int)
    requires IsSlot(inicio, vs, dir)
    ensures IsSlot(inicio, SetVar(vs, inicio, dir, v), otra) <==> IsSlot(inicio, vs, otra)
    ensures IsSlot(inicio, vs, otra) ==>
      GetVar(SetVar(vs, inicio, dir, v), inicio, otra) == if otra == dir then v else GetVar(vs, inicio, otra)
  {
    if otra != dir && IsSlot(inicio, vs, otra) {
      assert (otra - inicio) / 5 != (dir - inicio) / 5;
    }
  }

  lemma {:induction false} GetSetSusp(base: int, s: Susp, dir: int, v: int32, otra: int)
    requires LiveSusp(base, s, dir)
    ensures LiveSusp(base, SetSusp(base, s, dir, v), otra) <==> LiveSusp(base, s, otra)
    ensures LiveSusp(base, s, otra) ==>
      GetSusp(base, SetSusp(base, s, dir, v), otra) == if otra == dir then v else GetSusp(base, s, otra)
  {
    hide GetVar, SetVar, IsSlot;
    if IsSlot(base + Len(s.debajo), s.marco.vars, dir) {
      GetSetVar(s.marco.vars, base + Len(s.debajo), dir, v, otra);
    } else {
      GetSetSusp(base, s.debajo, dir, v, otra);
    }
  }

  /** Reading through an address gives the value of the abstract variable that lives there. */
  lemma DereferRefines(m: Maquina, a: Pila, dir: int)
    requires Rep(m, a) && Live(m.pcb.dirSegStack, a, dir)
    ensures Dereferenciado(m, dir) == Some(GetSlot(m.pcb.dirSegStack, a, dir))
  {
    hide Encode, Decode, EncVars, EncSusp, EncMarco, EncEnlace, Diccionario;
    var base := m.pcb.dirSegStack;
    var v := GetSlot(base, a, dir);
    var off := dir - base + 1;
    var img := Image(base, a);
    if !IsSlot(base + Len(a.susp), a.vars, dir) {
      SetGetSusp(base, a.susp, dir);
    }
    assert SetSlot(base, a, dir, v) == a;
    SetSlotImage(base, a, dir, v);
    assert Splice(img, off, Encode(v))[off..off + 4] == Encode(v);
    SliceOfSlice(m.pila, 0, |img|, off, off + 4);
    DecodeEncode(v);
  }

  /** A write through the address of a variable is read back through it, and leaves every other variable
      of every frame as it was. */
  lemma WriteThenRead(base: int, a: Pila, dir: int, v: int32, otra: int)
    requires Live(base, a, dir)
    ensures Live(base, SetSlot(base, a, dir, v), otra) <==> Live(base, a, otra)
    ensures Live(base, a, otra) ==>
      GetSlot(base, SetSlot(base, a, dir, v), otra) == if otra == dir then v else GetSlot(base, a, otra)
  {
    hide GetVar, SetVar, IsSlot;
    var inicio := base + Len(a.susp);
    if IsSlot(inicio, a.vars, dir) {
      GetSetVar(a.vars, inicio, dir, v, otra);
    } else {
      GetSetSusp(base, a.susp, dir, v, otra);
    }
  }

  /** On the bytes: what `asignar` wrote is what `dereferenciar` returns, and no other variable moved. */
  lemma AssignThenRead(m: Maquina, a: Pila, dir: int, v: int32, otra: int)
    requires Rep(m, a) && Live(m.pcb.dirSegStack, a, dir) && Live(m.pcb.dirSegStack, a, otra)
    ensures Dereferenciado(Asignada(m, dir, v), otra) == if otra == dir then Some(v) else Dereferenciado(m, otra)
  {
    hide Encode, Decode, Image, Diccionario, Holds, Live, SetSlot, GetSlot, Dereferenciado, Escribir;
    var base := m.pcb.dirSegStack;
    SetSlotRefines(m, a, dir, v);
    EscribirKeeps(m, dir - base + 1, Encode(v));
    WriteThenRead(base, a, dir, v, otra);
    DereferRefines(m, a, otra);
    DereferRefines(Asignada(m, dir, v), SetSlot(base, a, dir, v), otra);
  }

  /** Whether variable `i` is the last one of the context with that name. */
  predicate LastNamed(vs: seq<Var>, i: int, nombre: byte) {
    && 0 <= i < |vs| && Caracter(vs[i].nombre) == nombre
    && forall j {:trigger vs[j]} :: i < j < |vs| ==> Caracter(vs[j].nombre) != nombre
  }

  lemma LastNamedBelow(vs: seq<Var>, i: int, nombre: byte)
    requires vs != [] && i < |vs| - 1 && Caracter(vs[|vs| - 1].nombre) != nombre
    ensures LastNamed(vs, i, nombre) <==> LastNamed(vs[..|vs| - 1], i, nombre)
  {
    var ws := vs[..|vs| - 1];
    if LastNamed(ws, i, nombre) {
      forall j | i < j < |vs|
        ensures Caracter(vs[j].nombre) != nombre
      {
        if j < |ws| {
          assert vs[j] == ws[j];
        }
      }
    }
    if LastNamed(vs, i, nombre) {
      forall j | i < j < |ws|
        ensures Caracter(ws[j].nombre) != nombre
      {
        assert vs[j] == ws[j];
      }
    }
  }

  lemma {:induction false} DiccionarioFinds(vs: seq<Var>, d: int, nombre: byte)
    ensures nombre in Diccionario(vs, d) <==> exists i :: LastNamed(vs, i, nombre)
    ensures forall i :: LastNamed(vs, i, nombre) ==> nombre in Diccionario(vs, d) && Diccionario(vs, d)[nombre] == d + 5 * i
    decreases |vs|
  {
    if vs != [] {
      var n := |vs| - 1;
      DiccionarioFinds(vs[..n], d, nombre);
      if Caracter(vs[n].nombre) == nombre {
        assert LastNamed(vs, n, nombre);
      } else {
        assert !LastNamed(vs, n, nombre);
        forall i | i < n
          ensures LastNamed(vs, i, nombre) <==> LastNamed(vs[..n], i, nombre)
        {
          LastNamedBelow(vs, i, nombre);
        }
      }
    }
  }

  /** Variable `i` is the last one a program can mean by `id`. */
  predicate UltimaCon(vs: seq<Var>, i: int, id: byte) {
    0 <= i < |vs| && MismoNombre(vs[i].nombre, id) && forall j :: i < j < |vs| ==> !MismoNombre(vs[j].nombre, id)
  }

  lemma LastWithName(vs: seq<Var>, i: int, id: byte)
    ensures UltimaCon(vs, i, id) <==> LastNamed(vs, i, Caracter(id))
    ensures UltimaCon(vs, i, id) ==> 0 <= i < |vs|
  {
    forall j | 0 <= j < |vs|
      ensures Caracter(vs[j].nombre) == Caracter(id) <==> MismoNombre(vs[j].nombre, id)
    {
      NamesApart(vs[j].nombre, id);
    }
  }

  /** `obtenerPosicionVariable` finds exactly the names defined in the current context, and of several
      definitions the last: the address it gives is that variable's. */
  lemma LookupIsLastDefinition(m: Maquina, a: Pila, id: byte)
    requires Rep(m, a)
    ensures Posicion(m, id).Some? <==> exists i :: UltimaCon(a.vars, i, id)
    ensures forall i :: UltimaCon(a.vars, i, id) ==>
      var dir := m.pcb.dirCont + 5 * i;
      && Posicion(m, id) == Some(dir)
      && Live(m.pcb.dirSegStack, a, dir) && Dereferenciado(m, dir) == Some(a.vars[i].valor)
  {
    hide Encode, Decode, EncVars, EncSusp, EncMarco, EncEnlace, Diccionario, Dereferenciado, LastNamed, UltimaCon;
    DiccionarioFinds(a.vars, m.pcb.dirCont, Caracter(id));
    forall i
      ensures UltimaCon(a.vars, i, id) <==> LastNamed(a.vars, i, Caracter(id))
      ensures UltimaCon(a.vars, i, id) ==> 0 <= i < |a.vars|
    {
      LastWithName(a.vars, i, id);
    }
    forall i | 0 <= i < |a.vars| && UltimaCon(a.vars, i, id)
      ensures Live(m.pcb.dirSegStack, a, m.pcb.dirCont + 5 * i)
      ensures Dereferenciado(m, m.pcb.dirCont + 5 * i) == Some(a.vars[i].valor)
    {
      DereferRefines(m, a, m.pcb.dirCont + 5 * i);
    }
  }

  /** Two variables with different names: each is found at its own address with its own value, and their name bytes
      are the characters of the program. */
  lemma TwoDefinitions(m: Maquina, a: Pila, x: byte, vx: Palabra, y: byte, vy: Palabra)
    requires Rep(m, a) && !a.fin && |Image(m.pcb.dirSegStack, a)| + 10 <= |m.pila| && !MismoNombre(x, y)
    ensures var (base, top) := (m.pcb.dirSegStack, Tope(m));
            var r := Correr(m, [Definir(x, vx), Definir(y, vy)]);
            && r.Some? && top >= 0 && top + 10 <= |r.value.pila|
            && Posicion(r.value, x) == Some(base + top) && Posicion(r.value, y) == Some(base + top + 5)
            && Dereferenciado(r.value, base + top) == Some(Decode(vx))
            && Dereferenciado(r.value, base + top + 5) == Some(Decode(vy))
            && r.value.pila[top] == (if x <= 9 then x + 48 else x) && r.value.pila[top + 5] == (if y <= 9 then y + 48 else y)
  {
    hide Encode, Decode, Diccionario, Image, Rep, MismoNombre, Posicion, Dereferenciado;
    var ops := [Definir(x, vx), Definir(y, vy)];
    TopeIsImageEnd(m, a);
    NamesApart(x, y);
    var b := TwoMore(m, a, x, vx, y, vy);
    var r := Correr(m, ops).value;
    LookupIsLastDefinition(r, b, x);
    LookupIsLastDefinition(r, b, y);
    assert UltimaCon(b.vars, |a.vars|, x) && UltimaCon(b.vars, |a.vars| + 1, y);
    TwoNameBytes(m, x, vx, y, vy);
  }

  lemma TwoMore(m: Maquina, a: Pila, x: byte, vx: Palabra, y: byte, vy: Palabra) returns (b: Pila)
    requires Rep(m, a) && !a.fin && |Image(m.pcb.dirSegStack, a)| + 10 <= |m.pila| && !MismoNombre(x, y)
    ensures b == a.(vars := a.vars + [Var(Caracter(x), Decode(vx)), Var(Caracter(y), Decode(vy))])
    ensures MismoNombre(Caracter(x), x) && MismoNombre(Caracter(y), y) && !MismoNombre(Caracter(y), x)
    ensures var r := Correr(m, [Definir(x, vx), Definir(y, vy)]);
            && r.Some? && Rep(r.value, b)
            && r.value.pcb.dirCont == m.pcb.dirCont && r.value.pcb.dirSegStack == m.pcb.dirSegStack
            && Tope(m) == m.pcb.dirCont - m.pcb.dirSegStack + 5 * |a.vars| && m.pcb.dirSegStack >= 0
  {
    hide Encode, Decode, Diccionario, EncVars, EncSusp;
    var ops := [Definir(x, vx), Definir(y, vy)];
    NamesApart(x, y);
    NamesApart(Caracter(y), x);
    NamesApart(Caracter(y), y);
    var a1 := a.(vars := a.vars + [Var(Caracter(x), Decode(vx))]);
    b := a.(vars := a.vars + [Var(Caracter(x), Decode(vx)), Var(Caracter(y), Decode(vy))]);
    assert a1.vars + [Var(Caracter(y), Decode(vy))] == b.vars;
    assert PasoPila(m.pcb.dirSegStack, |m.pila|, a, ops[0]) == Some(a1);
    assert PasoPila(m.pcb.dirSegStack, |m.pila|, a1, ops[1]) == Some(b);
    assert ops[1..] == [ops[1]] && ops[1..][1..] == [];
    assert CorrerPila(m.pcb.dirSegStack, |m.pila|, a1, ops[1..]) == Some(b);
    RunRefines(m, a, ops);
    DefinitionsStay(m, ops[0], ops[1]);
  }

  lemma DefinitionsStay(m: Maquina, p: Op, q: Op)
    requires p.Definir? && q.Definir?
    ensures var r := Correr(m, [p, q]);
            r.Some? && r.value.pcb.dirCont == m.pcb.dirCont && r.value.pcb.dirSegStack == m.pcb.dirSegStack
  {
    hide Splice;
    assert [p, q][1..] == [q] && [q][1..] == [];
    assert Correr(Paso(m, p).value, [q]) == Paso(Paso(m, p).value, q);
  }

  lemma TwoNameBytes(m: Maquina, x: byte, vx: Palabra, y: byte, vy: Palabra)
    requires m.pcb.dirSegStack >= 0 && 0 <= Tope(m) && Tope(m) + 10 <= |m.pila|
    ensures var (top, r) := (Tope(m), Correr(m, [Definir(x, vx), Definir(y, vy)]));
            r.Some? && |r.value.pila| == |m.pila| && r.value.pila[top] == Caracter(x) && r.value.pila[top + 5] == Caracter(y)
  {
    var m1 := Definida(m, x, vx);
    assert [Definir(x, vx), Definir(y, vy)][1..] == [Definir(y, vy)] && [Definir(y, vy)][1..] == [];
    assert Correr(m1, [Definir(y, vy)]) == Some(Definida(m1, y, vy));
    assert Tope(m1) == Tope(m) + 5;
  }

  lemma {:induction false} NameAt(vs: seq<Var>, i: nat)
    requires i < |vs|
    ensures EncVars(vs)[5 * i] == vs[i].nombre
    decreases |vs|
  {
    hide Encode;
    if i < |vs| - 1 {
      NameAt(vs[..|vs| - 1], i);
    }
  }

  /** Name and value of each variable. */
  function Lineas(vs: seq<Var>): (r: seq<(byte, int)>)
    ensures |r| == |vs| && forall i :: 0 <= i < |vs| ==> r[i] == (vs[i].nombre, vs[i].valor as int)
  {
    seq(|vs|, i requires 0 <= i < |vs| => (vs[i].nombre, vs[i].valor as int))
  }

  /** What the process prints when it ends is its variables, in the order they were defined. */
  lemma FinalListing(m: Maquina, a: Pila)
    requires Rep(m, a) && a.susp.Fondo?
    ensures Imprimible(m)
    ensures Impresas(m) == Lineas(a.vars)
  {
    hide Encode, Decode, Diccionario, EncVars;
    OutermostReadable(m, a);
    forall i | 0 <= i < |a.vars|
      ensures Impresas(m)[i] == (a.vars[i].nombre, a.vars[i].valor as int)
    {
      DereferRefines(m, a, m.pcb.dirCont + 5 * i);
      NameAt(a.vars, i);
      assert [] + EncVars(a.vars) == EncVars(a.vars);
    }
  }
}
