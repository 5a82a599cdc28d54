# Verified model of a small distributed operating system

Programs are sent to a kernel, which schedules them over any number of CPUs; the CPUs interpret them over stack
segments kept by a segmented memory server (the UMV); the three talk through length-prefixed messages. This
project models that system in Dafny and proves what its parts promise each other.

| file | what it models |
|---|---|
| `Bytes.dfy`, `Wire.dfy` | little-endian `int32_t` images, the four message kinds and their serializers |
| `Framing.dfy` | the length-prefixed receive, over a stream that arrives in pieces and may end |
| `SegmentTable.dfy`, `Umv.dfy` (module `MemoryServer`) | the segment table and its search, compaction and destruction; the server with its byte array |
| `Requests.dfy` | segment requests as a relation on table and store, and exactly when they leave the bytes of others alone |
| `CallStack.dfy`, `Processor.dfy` | the primitives over raw stack bytes, as functions and as the methods of the CPU process |
| `Refinement.dfy`, `Calls.dfy` | those bytes as a stack of frames; whole calls, unwinding, faults |
| `Scheduler.dfy`, `Kernel.dfy` (module `KernelProcess`) | the kernel as a step machine, and its handlers and loops changing queues in place |
| `Invariant.dfy`, `Steps.dfy`, `Runs.dfy` | what every reachable state of the kernel satisfies and what adds up over runs |
| `Order.dfy` | who goes where and in what order: the laws of the queues and lines, step by step and over runs |
| `Preemption.dfy`, `Interleaving.dfy` | one process cut into quanta; many processes interleaved over one memory server |

Main results: `Refinement.RunRefines` with `Calls.BalancedCall`; `Preemption.AnyRunPreempted` with
`Preemption.DispatchesIff`; `Interleaving.SystemIsTransparent` with its exact condition `Requests.ChainIff`, which puts the
wire, the CPU, the kernel and the memory server together and asks nothing of what the processes run;
`Runs.Reachable` with `Runs.ValueOverRuns` and `Runs.DegreeOverRuns`; `Order.RoundRobin` with `Order.LineFifo`; `MemoryServer.Umv.CrearSegmento` with
`SegmentTable.CompactionInvisibleIffPacked`; `Wire.RoundTrip` with `Framing.FramingIff` and `Framing.ReceivedIff`.

## Conventions

- A C `int32_t` is a mathematical integer; it wraps where it becomes bytes (`Bytes.Encode`). Bounds on control
  block fields appear as `PcbFits`. C division truncates (`CallStack.DivC`).
- `None` results of `CallStack.Paso` and `Scheduler.Paso` are a process that dies on a null pointer: it follows
  one, or puts one in a queue.
- Each kernel step is atomic. A manager thread is split at its waits on counting semaphores: `TomaNuevo`,
  `TomaCupo`, `NuevoAListo` are the two waits and the body of `manejador_new_ready`. A step that waits is possible
  only when its counter is positive.
- `Scheduler.Posible` also says what the environment does: only a connected CPU reports; a new CPU has a socket
  no connected CPU has; weights are at most 1000000 (`Runs.SlotLostIff` shows what happens otherwise); a program
  disconnects only while it executes, and a connection has one executing program; a free CPU disconnects only
  while a token for it is there.
- `Scheduler.Sano` is no assumption of the step machine: it names the reports the kernel survives, and `Steps.StepKeeps` and
  `Runs.Reachable` prove that it dies of exactly the others.
- `rand()` for logical addresses is an argument, assumed not to repeat an address of the same process. What is
  undefined in C is an argument too: the value bytes of a new variable (`basura`), the bytes line 578 of
  `UMV/UMV.c` copies (`pila`), the uninitialised field of a control block (`sobra`), what a receive finds in its
  peek buffer and in the array on its frame (`Framing.Entorno`), what lies behind the buffer of a request (`heap`).
- `copia` chooses between `compactar` as it is written and as it was meant. A table is quiet for a request
  (`Requests.Quieto`) when compaction copies as meant, or is not needed, or would move no non-empty segment of the
  others; all three can be read off the table before the request. `Requests.CadenaQuieta` asks it of each request of an
  admission in turn, and `Interleaving.Tranquila` of each admission of a history.
- `Interleaving.Fiel` lets a CPU hand back any block at any time, or be lost, as long as what it writes goes to segments of the
  process it runs, which is what `Processor.Cpu.Ejecutar` ensures. A stay is lost (`Mundo.perdidos`) when the process goes on but
  block and bytes are not those its primitives lead to, a lost CPU above all; the theorem then says no more of that
  process and everything of the others.
- A dictionary of semaphores or devices is a list with numbered keys; a number past its end is a missing key.

## Where code and intent differ

- `compactar` copies from `&aux_seg` (line 578) instead of the old place of the segment.
  `MemoryServer.Umv.Compactar` is the code; `MemoryServer.Umv.CompactarCopiando` is the intent. With the code, an admission
  can overwrite the stack of any other process; `Interleaving.AdmissionSparesIff` says exactly when it cannot.
- `enviar_IO` does not test whether the device exists (`kernel/kernel.c:371-372`), nor does `entradaSalida`
  (`CPU/cpu.c:679-694`): a program that names a device which is not configured ends the kernel (`Steps.KernelDies`).
- A CPU can report after the kernel has taken its process away. `mi_signal` ends the process of a missing
  semaphore but the CPU runs on (`CPU/cpu.c:742-746`), and `llamarConRetorno` on an exhausted stack reports the
  same fault twice (`CPU/cpu.c:538` and `567`, `Calls.TwoReportsIff`). The handlers then follow the null pointer that the
  search by id returns (`kernel/kernel.c:414-416`, `542-545`; `Steps.NothingToRelease`).
- The peek for the length does not wait for four bytes (`sockets_lib/sockets_lib.c:139`), and a read that comes up
  short is only printed (lines 158-161): the receiver then hands on a message made of uninitialised memory.
- `recibirUnPcb` frees the block after a message of the wrong type and goes on with it (`CPU/cpu.c:150-153`).
- An inner gap is used only if it is strictly larger than the request, while the tail may fit exactly. Allocation is
  complete all the same, because it compacts and tries again.
- `regenerar_dicc_var` finds the names that are in memory, not those that were defined: a write through an address inside the
  segment can rename a variable, which the process notices only after its next dispatch (`Preemption.PointerWriteLosesName`).
- A CPU that is lost leaves the kernel with the block from before its stay and the memory server with the bytes from
  after it (`kernel/kernel.c:390-408`).
- `preservarContexto` reports a fault but its callers go on; the model does too, and the refinement is
  stated for runs without faults.
- `get_peso_min` ignores weights above 1000000 and `manejador_new_ready` then loses both tokens.
- `cambiar_multiprog` does not see a slot that `manejador_new_ready` has taken and not yet filled.

## Model

| member | source | states |
|---|---|---|
| Bytes.DecodeEncode | CPU/cpu.c:826-830 | copying an integer into four bytes and back returns it if and only if it fits an int32_t; a wider one wraps around |
| Bytes.EncodeDecode | sockets_lib/sockets_lib.c:185-200 | every four bytes are the image of the int32_t read from them, so the two directions are inverse |
| Wire.RoundTrip | sockets_lib/sockets_lib.c:167-571 | for each of the four message kinds, the deserializer stays inside what the serializer produced and gives the message back, and the length word is the true length |
| Wire.Layout | sockets_lib/sockets_lib.c:167-571 | at which offset each field of each kind lies, after the true length: what any peer that reads the bytes can rely on |
| Wire.RequestHeaderSurvives | sockets_lib/sockets_lib.c:346-464 | a request whose declared size exceeds its real buffer reads past it when serialized; whatever is there, the four header fields arrive unchanged |
| Framing.ReceiveOneIff | sockets_lib/sockets_lib.c:136-162 | one message is received as it was sent, and nothing of what follows it is taken, for all contents of the uninitialised buffers if and only if the peek found the four bytes of its length |
| Framing.FramingIsExact | sockets_lib/sockets_lib.c:136-162 | any sequence of messages of known kinds is split back into exactly that sequence, with nothing taken from what follows, when every peek finds four bytes |
| Framing.FramingIff | sockets_lib/sockets_lib.c:136-162 | under any arrival of the bytes this is so for all contents of the uninitialised buffers if and only if every peek finds four bytes, since line 139 does not wait for them |
| Framing.ReceivedIff | sockets_lib/sockets_lib.c:136-162 | whatever arrived, in whatever pieces, and whatever the uninitialised buffers held: a given message is handed on if and only if the length seen is long enough and the bytes read behind the length word are those of that message |
| Framing.CutIff | sockets_lib/sockets_lib.c:136-161 | of a message cut anywhere behind its first byte, what is handed on is the message sent if and only if the length made of the bytes peeked and of the peek buffer is long enough and the array on the frame held exactly the missing bytes; behind a length word that arrived whole the length is right |
| Framing.CutKeepsFields | sockets_lib/sockets_lib.c:151-161 | whatever message comes of a cut, its kind and every header field that arrived whole are those sent |
| Framing.CutGivesAnotherMessage | sockets_lib/sockets_lib.c:158-161 | a one-character text of which only the header arrives is received as a text with another character, for every pair of characters |
| Framing.CutStream | sockets_lib/sockets_lib.c:136-162 | a stream that ends inside a message delivers every message before it; a cut in front of the message is seen as a closed peer, and a later one, from the first byte on, yields the message sent if and only if the length seen is long enough and the array held the missing bytes |
| Wire.SerializarComun | sockets_lib/sockets_lib.c:167-183 | the running-offset copies fill the buffer with exactly the specified bytes |
| Wire.SerializarQuantumPcb | sockets_lib/sockets_lib.c:273-308 | the same for the control block and quantum, field order included |
| Wire.SerializarCpuUmv | sockets_lib/sockets_lib.c:422-442 | the same for memory requests, for every declared size that buffer and heap behind it can supply, a request without a buffer included |
| Wire.SerializarSeg | sockets_lib/sockets_lib.c:541-554 | the same for segment requests |
| Wire.Deserializar | sockets_lib/sockets_lib.c:310-340 | the four deserializers read the fields at the specified offsets |
| Framing.Conexion.Enviar | sockets_lib/sockets_lib.c:109-122 | sending appends exactly the bytes of the message; a request whose declared size exceeds its buffer takes the rest from behind it |
| Framing.Conexion.Recibir | sockets_lib/sockets_lib.c:136-162 | the receive through the array on the frame yields what the specification says, also when the peek or the read is short, and leaves the rest for the next one |
| SegmentTable.OrdenadaReorders | UMV/UMV.c:428-433 | sorting gives the same segments in address order, keeps sizes and owners, and leaves an ordered list alone |
| SegmentTable.HoleIsFree | UMV/UMV.c:520-562 | the gap before a sorted segment, as the walk measures it, overlaps no segment: a block placed in it keeps the table valid |
| SegmentTable.HoleWithinFree | UMV/UMV.c:520-562 | no hole exceeds the total free bytes, so a request above them is refused |
| SegmentTable.PlacementIsAHole | UMV/UMV.c:520-562 | an address that either search returns is the start of a hole large enough, strictly larger when it is an inner one |
| SegmentTable.PlacementIsUnique | UMV/UMV.c:520-562 | the policies leave no choice: first-fit is the lowest inner hole strictly larger than the request or else the tail, worst-fit a hole none exceeds with ties to the tail |
| SegmentTable.CompactedTable | UMV/UMV.c:564-585 | compaction packs the segments from 0 in their previous order inside memory, keeps owners and sizes, and running it again changes nothing |
| SegmentTable.PackedHoles | UMV/UMV.c:564-585 | a compacted table has no inner hole: its tail is all the free memory |
| SegmentTable.SearchAfterCompaction | UMV/UMV.c:441-448 | after compaction either search succeeds if and only if the request is at most the free bytes |
| SegmentTable.CompactionInvisibleIffPacked | UMV/UMV.c:564-585 | as written (line 578 copies from the address of a local pointer), compaction keeps every readable byte for all stack contents if and only if no non-empty segment has to move |
| SegmentTable.CompactionLosesBytes | UMV/UMV.c:577-580 | a two-byte memory with one segment whose content compaction replaces by what the stack holds |
| Requests.StillKept | UMV/UMV.c:574-575 | when compaction as written runs, the segments with no free byte below them keep their bytes, whatever else moves |
| SegmentTable.MovedIsLost | UMV/UMV.c:576-581 | for every table with a non-empty segment that moves, there are stack contents for which a read of it changes |
| SegmentTable.ContenidoSinProceso | UMV/UMV.c:587-608 | destroying a process removes its entries from what clients can read and nothing else |
| SegmentTable.OneOfItsType | UMV/UMV.c:187-210 | a search by type can only find the segment that a search by logical address finds, when the process has one of that type |
| MemoryServer.Umv.constructor | UMV/UMV.c:17-53 | the memory starts with no segment |
| MemoryServer.Umv.OrdenarListaSeg | UMV/UMV.c:428-433 | reorders the list only; every client-visible byte stays |
| MemoryServer.Umv.PrimerHueco | UMV/UMV.c:527-538 | the byte-by-byte loop implements first-fit with its strict inner-gap test |
| MemoryServer.Umv.PeorHueco | UMV/UMV.c:540-560 | the loop that measures inner holes one byte short still implements worst-fit |
| MemoryServer.Umv.RecorrerHueco | UMV/UMV.c:544-548 | the inner loop ends with the maximum of the old best and the hole minus one byte |
| MemoryServer.Umv.BuscarEspacioMemPrin | UMV/UMV.c:520-562 | sorts and then places, keeping every client-visible byte: the value FIRST_FIT gives the lowest hole with a byte to spare, any other value a place where as many bytes are free as anywhere |
| MemoryServer.Umv.Compactar | UMV/UMV.c:564-585 | literal compaction: packed table, same names, and exactly the scrambled contents that line 578 produces |
| MemoryServer.Umv.CompactarCopiando | UMV/UMV.c:564-585 | compaction as meant, each segment copied upwards from its old place with overlaps allowed: every client-visible byte stays |
| MemoryServer.Umv.CompactarSegunModo | UMV/UMV.c:564-585 | either form of compaction changes table and store as the relational model says |
| MemoryServer.Umv.BuscarOCompactar | UMV/UMV.c:440-449 | search, compact, search again: fails if and only if the request exceeds the free bytes |
| MemoryServer.Umv.CrearSegmento | UMV/UMV.c:435-487 | succeeds if and only if the request is at most total memory minus all segment sizes, for either policy and any fragmentation; says what happens to owners, names, sizes and contents; if the table is quiet for the request, no other process loses a byte |
| MemoryServer.Umv.GestionarPedSeg | UMV/UMV.c:235-250 | a granted request adds one segment of that type and size; a refused one leaves the process without any segment and all other owners as they were; and if the table is quiet for the request every segment of every other process keeps its bytes |
| MemoryServer.Umv.DestruirSegmentos | UMV/UMV.c:587-608 | removes exactly the segments of the process (all of them for process 0) and no client-visible byte of another |
| MemoryServer.Umv.BuscarSegmentoDirLogica | UMV/UMV.c:212-226 | finds a segment if and only if the process has one at that logical address, and then that one |
| MemoryServer.Umv.BuscarSegmentoTipoSeg | UMV/UMV.c:187-210 | finds a segment of that owner and type unless there is none |
| MemoryServer.Umv.SolicitarBytes | UMV/UMV.c:326-372 | returns the named bytes, or a fault exactly when they are not all inside the segment; an unknown name yields an uninitialised buffer |
| MemoryServer.Umv.AlmacenarBytes | UMV/UMV.c:402-426 | writes exactly the named bytes or faults; nothing else in the store changes |
| MemoryServer.Umv.LecturaTrasEscritura | UMV/UMV.c:326-426 | three requests to the server: what was written is read back, and every read that shares no byte with it, or around a write that faults, returns what it returned before |
| MemoryServer.Umv.AlmacenarSegmento | UMV/UMV.c:172-185 | fills the segment found by type when the size is exact; a read by logical address then returns what was stored |
| Requests.MovesIff | UMV/UMV.c:574-576 | in address order, a non-empty segment has to move if and only if there is a free byte below it: a condition on the table in any order |
| Requests.OrderFree | UMV/UMV.c:428-433 | neither that condition nor the one for needing no compaction depends on the order of the list |
| Requests.LookFindsIff | UMV/UMV.c:520-562 | under either policy the first look finds a place if and only if more bytes than asked for are free below some segment or enough are free at the end |
| Requests.FirstFitLowest | UMV/UMV.c:525-538 | first-fit, byte by byte: the start of the lowest hole that has more bytes than asked for, or the end of the last segment when there is none and the rest fits, or nothing |
| Requests.WorstFitLargest | UMV/UMV.c:539-561 | worst-fit, byte by byte: nowhere are more bytes free; the end wins over a hole that is no larger, and of equal holes the lower is taken |
| Requests.RespondeKeeps | UMV/UMV.c:235-250 | every answer keeps the table valid and in step with the store; a grant adds one owner, one name and the size, a refusal takes the segments of that process and of no other |
| Requests.QuietoIff | UMV/UMV.c:435-487 | a request never changes a byte of given segments of other processes, whatever the stack holds, if and only if compaction copies as meant, or is not needed, or would move none of them |
| Requests.ChainIff | kernel/kernel.c:864-901 | a sequence of requests never does, in any run and at no point of it, if and only if each of them finds such a table |
| Requests.AtiendeKeeps | kernel/kernel.c:864-901 | a sequence of requests is granted whole if and only if together they are at most the free bytes; then the process owns one segment more for each, else none, and everyone else owns what they did |
| Requests.AtiendeQuieto | kernel/kernel.c:864-901 | with such tables all along, the named segments of other processes keep every byte |
| Requests.AtiendeGrants | kernel/kernel.c:864-901 | every granted request has its segment in the end, with the size asked for, and every earlier segment its size |
| Requests.CopyingIsQuiet | UMV/UMV.c:564-585 | with compaction as meant every sequence of requests qualifies |
| CallStack.PasoKeeps | CPU/cpu.c:340-653 | no primitive touches more of the control block than variable count, program counter and context address, nor the size of the stack |
| CallStack.OnlyThreeFields | CPU/cpu.c:211-223 | the same over any run, which is what makes copying three fields enough |
| CallStack.CorrerIgual | CPU/cpu.c:340-653 | no run, faulting or not, depends on the variable dictionary: two machines that differ in it alone keep differing in it alone, and die together |
| Refinement.StepRefines | CPU/cpu.c:340-653 | on fault-free steps every primitive on raw bytes does what its counterpart does on an abstract stack of frames |
| Refinement.RunRefines | CPU/cpu.c:340-653 | after any fault-free run, at any nesting depth, the bytes and three fields decode to the abstract stack |
| Refinement.DefinirRefines | CPU/cpu.c:340-375 | defining a variable pushes one slot and one dictionary entry |
| Refinement.AsignarRefines | CPU/cpu.c:421-444 | an assignment to any live variable, of the current or of a suspended frame, sets that variable and no other |
| Refinement.PreservadoHolds | CPU/cpu.c:225-262 | the saved context pointer and program counter land right behind the last variable |
| Refinement.LlamarSinRefines | CPU/cpu.c:519-533 | a call without result suspends the frame with an eight-byte linkage |
| Refinement.LlamarConRefines | CPU/cpu.c:535-571 | a call with result suspends it with a twelve-byte linkage |
| Refinement.SavedContext | CPU/cpu.c:584-603 | the linkage reads back the suspended frame: its start, strictly below the current one and never below the segment, its program counter, and its variable count by the division by five |
| Refinement.PopRefines | CPU/cpu.c:602-607 | restoring the saved fields and rebuilding the dictionary gives the stack without its youngest frame |
| Refinement.FinalizarRefines | CPU/cpu.c:573-608 | ending a call without result pops it; ending the outermost context ends the process |
| Refinement.RetornarRefines | CPU/cpu.c:610-653 | returning pops a call with result and stores the value in the variable the caller named |
| Refinement.IndexCoherent | CPU/cpu.c:852-875 | after every fault-free run the incrementally kept dictionary equals a scan of the name bytes, so rebuilding it changes nothing |
| Refinement.DereferRefines | CPU/cpu.c:395-419 | reading through an address gives the value of the variable that lives there, in any frame |
| Refinement.WriteThenRead | CPU/cpu.c:395-444 | on the abstract stack a write is read back and leaves every other variable of every frame alone |
| Refinement.AssignThenRead | CPU/cpu.c:395-444 | the same law on the bytes |
| CallStack.NamesApart | CPU/cpu.c:329-337 | two identifiers are one name if and only if they are equal or one is a digit and the other its character; every other byte is its own name |
| Refinement.LookupIsLastDefinition | CPU/cpu.c:377-393 | a lookup finds something if and only if the context defines an identifier that is the same name, and then the last such definition, with its value |
| Refinement.TwoDefinitions | CPU/cpu.c:340-393 | after two definitions with different names each is found at its own address with its own value, and the name bytes stored are the characters the program wrote |
| Refinement.FinalListing | CPU/cpu.c:286-317 | what a finished process prints is its variables with their values in definition order |
| Calls.FaultIffExhausted | CPU/cpu.c:225-262 | a pushing primitive faults if and only if the stack segment has no room for what it pushes |
| Calls.FinalizarClosesIff | CPU/cpu.c:573-608 | finalizar restores the caller if and only if the frame was opened without a result, up to one numeric coincidence that is spelled out |
| Calls.RetornarClosesIff | CPU/cpu.c:610-653 | retornar on a frame opened without a result restores the caller if and only if the caller has no variables and its own start is both its program counter and the last word of the linkage under it |
| Calls.ConfinedRun | CPU/cpu.c:519-653 | whatever a confined body calls and returns from, the frames below it stay |
| Calls.BalancedCallPila | CPU/cpu.c:535-653 | call, confined body, return: the abstract caller is back with only the receiving variable changed |
| Calls.BalancedCall | CPU/cpu.c:535-653 | on the bytes: control block and dictionary restored, and below the top of the caller only four value bytes differ |
| Calls.BalancedProcedure | CPU/cpu.c:519-608 | a call without result, a confined body and finalizar leave no trace: control block, dictionary and every byte below the top of the caller are as before |
| Calls.CallEnters | CPU/cpu.c:519-571 | a call leads to its label, in an empty context right behind the linkage, where no name of the caller is known, with the bytes of the caller in place |
| CallStack.Continues | CPU/cpu.c:500-517 | a line is followed by the next, a jump by its label, a jump to a missing label by the end of the process |
| CallStack.NoWriteAfterFault | CPU/cpu.c:421-444 | after a fault no assignment reaches the memory server, however many follow |
| CallStack.RetornarFaultsIff | CPU/cpu.c:610-653 | retornar marks a fault if and only if the linkage cannot be read; a receiving variable out of range is passed over |
| Calls.CierresIff | CPU/cpu.c:573-653 | closing every suspended frame meets no fault if and only if each frame that returns a result has its receiving variable in the frames under it, and then the stack is empty |
| Calls.UnwindsToBase | CPU/cpu.c:573-653 | on the bytes: the saved pointers lead back to the start of the segment and no further, if and only if every result has where to go; then one more finalizar ends the process |
| Calls.TwoReportsIff | CPU/cpu.c:535-569 | a primitive reports a fault to the kernel twice if and only if it is a call with a result for whose saved context there is no room, and at most once otherwise |
| Processor.Cpu.constructor | CPU/cpu.c:39-46 | a CPU starts with an empty dictionary and clear flags |
| Processor.Cpu.Leer | CPU/cpu.c:862-864 | a stack read through the memory server returns the bytes or a fault by the range test |
| Processor.Cpu.Escribir | CPU/cpu.c:832-836 | a stack write through the memory server changes those bytes of that segment and nothing else |
| Processor.Cpu.RegenerarDiccVar | CPU/cpu.c:852-875 | the rebuilding loop yields the dictionary of a scan, last definition winning |
| Processor.Cpu.DefinirVariable | CPU/cpu.c:340-375 | refines the specified primitive, and returns the address of the new slot or -1 |
| Processor.Cpu.Dereferenciar | CPU/cpu.c:395-419 | returns the value or faults, changing nothing else |
| Processor.Cpu.Asignar | CPU/cpu.c:421-444 | refines the primitive, doing nothing after a fault |
| Processor.Cpu.PreservarContexto | CPU/cpu.c:225-262 | refines the two writes, the second only after the first succeeded |
| Processor.Cpu.LlamarSinRetorno | CPU/cpu.c:519-533 | refines the primitive, going on after a fault as the original does |
| Processor.Cpu.LlamarConRetorno | CPU/cpu.c:535-571 | refines the primitive |
| Processor.Cpu.LeerEnlace | CPU/cpu.c:584-600 | decodes the two or three words of a linkage or reports the fault |
| Processor.Cpu.ListarVariables | CPU/cpu.c:286-317 | the printing loop lists the outermost context |
| Processor.Cpu.Finalizar | CPU/cpu.c:264-327 | refines the primitive; when the outermost context ends, what is sent to be printed is its variables with their values in definition order |
| Processor.Cpu.Retornar | CPU/cpu.c:610-653 | refines the primitive; a fault of the last write is only reported |
| Processor.Cpu.Ejecutar | CPU/cpu.c:2-16 | dispatches a primitive; all bytes of other segments and processes stay |
| Processor.Cpu.EjecutarLinea | CPU/cpu.c:82-84 | runs the primitives of a line in order |
| Processor.Cpu.CorrerQuantum | CPU/cpu.c:80-85 | the quantum loop runs lines until the quantum or the process ends |
| Processor.QuantumIsPrefix | CPU/cpu.c:80-85 | a quantum runs a prefix of the lines, cut only by the end of the process, of the quantum or of the lines |
| Processor.Cpu.RecibirUnPcb | CPU/cpu.c:132-159 | loads the control block and quantum if and only if the message is of the right type, and then rebuilds the dictionary from the bytes of its stack |
| Processor.Cpu.EnviarPcb | CPU/cpu.c:219-223 | produces the bytes of the message that hands the block back |
| Preemption.TransmitidoExacto | kernel/kernel.c:925-929 | a control block crosses the connection unchanged |
| Preemption.ReloadIff | CPU/cpu.c:68-78 | dispatching a block over its bytes: the CPU survives if and only if the names can be read, and then has the machine the process ran on, dictionary included if and only if it is that of a scan |
| Preemption.PointerWriteLosesName | CPU/cpu.c:421-444 | an input on which it is not: two variables and a write through an address between them; no fault, and after the next dispatch the second name is gone |
| Preemption.HandoverIsExact | kernel/kernel.c:931-939 | whatever the CPU ran, copying three fields brings the kernel the whole block |
| Preemption.AnyRunPreempted | CPU/cpu.c:68-93 | any primitives, faults, stray writes and badly closed frames included, cut into quanta anywhere: the process gets through if and only if its names can be read at every dispatch and no quantum kills the CPU, and then ends with the block, bytes and flags of the uninterrupted run |
| Preemption.DispatchesIff | CPU/cpu.c:68-93 | every dispatch finds the very machine that was cut off, dictionary included, if and only if the dictionary is that of a scan at each cut |
| Preemption.PreemptionTransparent | CPU/cpu.c:68-93 | the corollary for runs that the abstract stack can follow: every cut gets through, and the dictionary is that of the uninterrupted run as well |
| Preemption.FreshProcess | kernel/kernel.c:835-847 | an admitted process spells out the empty stack |
| Interleaving.OldOrRenewed | kernel/kernel.c:195-237 | after any kernel step each live record is an old one, the one just handed back with three fields renewed, or the one just admitted |
| Interleaving.OneRecord | kernel/kernel.c:605-627 | a live process has exactly one record in the queues |
| Interleaving.EndedIsGone | kernel/kernel.c:484-568 | a process that a step ends is in no other queue any more |
| Interleaving.StayExtendsRun | CPU/cpu.c:68-93 | one more stay on a CPU, whatever is run, gets through if and only if the names can be read at the dispatch and the longer uninterrupted run does not kill the CPU, and takes the process to where that run ends |
| Interleaving.HandoverIff | CPU/cpu.c:80-87 | a busy CPU can run given primitives and hand the block back if and only if they take the process on from where it is without a fault or an end |
| Interleaving.HandoverPossible | CPU/cpu.c:80-87 | so it can whenever the abstract stack can follow the run since the process started |
| Interleaving.AdmissionSpares | kernel/kernel.c:129-163 | an admission whose requests find quiet tables, and whose writes stay in its own segments, leaves the stack of every live process as it was |
| Interleaving.AdmissionSparesIff | kernel/kernel.c:864-901 | and that condition is exact: the requests leave the stacks of all live processes alone in every run if and only if each finds a quiet table |
| Interleaving.StepIsolated | kernel/kernel.c:195-237 | over one memory server shared by all, and with no condition on what any process runs: no step moves a process away from its own uninterrupted run, unless that process loses a stay on a CPU by it, if an admission finds quiet tables |
| Interleaving.EachRunsAlone | kernel/kernel.c:195-237 | over any history of admissions that find quiet tables, dispatches, quanta, waits, signals, device requests, lost CPUs, terminations and destructions, the block the kernel holds of every live process that has lost no stay, and its stack bytes in the memory server, are those of it running alone |
| Interleaving.SystemIsTransparent | kernel/kernel.c:29-47 | the same from the initial state of kernel and memory server: faults, stray writes and lost CPUs of others included |
| Interleaving.NobodyLostIff | kernel/kernel.c:385-430 | no process has lost a stay if and only if every process taken off its CPU was handed back as its run left it, or was ended |
| Interleaving.TransparentAsMeant | UMV/UMV.c:564-585 | with compaction as meant, for every history, without the condition on tables |
| Scheduler.Primero | kernel/kernel.c:670-687 | the entry a search finds is the first that fits, and none before it does |
| Scheduler.PesoMin | kernel/kernel.c:743-753 | the weight found is a lower bound, capped, and belongs to an entry unless it is the cap |
| Invariant.EnExec | kernel/kernel.c:670-687 | the process a busy CPU runs is found in the exec queue, for the same connection |
| Invariant.Desaloja | kernel/kernel.c:411-414 | taking a busy CPU and its process out keeps everything else of the invariant, with the process on its way |
| Invariant.DesbloqueaKeeps | kernel/kernel.c:571-593 | a process that leaves its line is always found in the block queue, so the error branch at line 591 is dead |
| Invariant.BloqueadoKeeps | kernel/kernel.c:642-668 | a process that blocks enters the block queue and exactly one line |
| Steps.NextIdIsFree | kernel/kernel.c:133-136 | the id of the next program owns no segment yet |
| Steps.AdmitirKeeps | kernel/kernel.c:129-163 | admission, granted or refused, keeps the invariant |
| Steps.NuevoKeeps | kernel/kernel.c:721-741 | a round of new-to-ready keeps it, with weights at most the cap |
| Steps.DespachaKeeps | kernel/kernel.c:771-806 | a dispatch always finds a free CPU and a ready process, and keeps it |
| Steps.DestruyeKeeps | kernel/kernel.c:689-719 | destroying an exited process keeps queues and memory server in agreement |
| Steps.IoTomaKeeps | kernel/kernel.c:915-917 | a device thread finds the request its token promises |
| Steps.IoTerminaKeeps | kernel/kernel.c:918-920 | the end of a request wakes exactly its process |
| Steps.EnviarIOKeeps | kernel/kernel.c:356-383 | a device request of a busy CPU is handled if and only if the device is configured (line 371 tests nothing), and then keeps the invariant |
| Steps.WaitKeeps | kernel/kernel.c:286-320 | a wait keeps it, blocking or not, also when the CPU leaves |
| Steps.SignalKeeps | kernel/kernel.c:322-344 | a signal that the kernel can handle keeps it |
| Invariant.ASalidaKeeps | kernel/kernel.c:595-603 | a process on its way that is put in exit keeps the invariant: token, slot and queue go together |
| Steps.TokenKeeps | kernel/kernel.c:693-777 | a manager thread that takes a token, and the console command, keep the invariant |
| Steps.TerminadoKeeps | kernel/kernel.c:484-568 | normal and erroneous ends keep it |
| Steps.FinQuantumKeeps | kernel/kernel.c:385-430 | the end of a quantum keeps it, also for a CPU that leaves |
| Steps.CpuNuevaKeeps | kernel/kernel.c:239-261 | a new CPU keeps it |
| Steps.CpuCaeKeeps | kernel/kernel.c:263-284 | a lost CPU, free or busy, keeps it |
| Steps.CpuDelPrograma | kernel/kernel.c:110-127 | a connection has a CPU if and only if it has a process in exec |
| Steps.ProgCierraKeeps | kernel/kernel.c:110-127 | a program that disconnects while executing takes its CPU and process out together |
| Steps.PesoMinFound | kernel/kernel.c:743-762 | a lightest process is found if and only if some weight is at most the cap |
| Steps.NothingToRelease | kernel/kernel.c:670-687 | a CPU that runs nothing has no process to be found: whoever looks for it gets a null pointer |
| Steps.KernelDies | kernel/kernel.c:356-383 | concrete ways there: a device that is not configured; a quantum report after a signal on a missing semaphore; the second of two fault reports |
| Steps.StepKeeps | kernel/kernel.c:195-237 | from a state of the invariant a step follows a null pointer if and only if it is a report that takes a process off a CPU running none, or names a device that is not configured; every other step takes no ERROR branch and keeps the invariant |
| Runs.StartsIff | kernel/kernel.c:1388-1404 | the kernel starts inside the invariant if and only if no user semaphore starts below zero |
| Runs.Reachable | kernel/kernel.c:29-47 | a run from the start follows no null pointer if and only if no report in it is of those two kinds, and then every state has each live process in exactly one queue, exec in bijection with busy CPUs, counters mirroring queues, lines partitioning the blocked, memory owners equal to live ids, and no error taken |
| Runs.SomeoneRuns | kernel/kernel.c:721-806 | with a slot to give, eight steps from the start leave a program running on a CPU |
| Runs.KernelDiesFromStart | kernel/kernel.c:356-383 | and from there the three inputs end the kernel: whole runs from the initial state |
| Runs.ExecMatchesCpus | kernel/kernel.c:771-806 | the bijection entry by entry: same ids, same connections, no process twice on either side |
| Runs.BlockedInOneLine | kernel/kernel.c:286-383 | a process is blocked if and only if it waits for one semaphore or one device, queued or being served, and never for two |
| Runs.OwnersAreLive | kernel/kernel.c:689-719 | a process owns segments in the memory server if and only if it is in a queue, and then exactly four |
| Runs.ValueOverRuns | kernel/kernel.c:286-344 | over any run a semaphore is worth its initial value plus signals minus waits, and as many wait on it as it is below zero |
| Runs.StepDegree | kernel/kernel.c:595-603 | every step but the console command keeps free slots plus occupied slots |
| Runs.DegreeOverRuns | kernel/kernel.c:721-741 | over any run, console commands included, free plus occupied slots are the degree last asked for and accepted (plus the slot that command overlooked), and no more processes hold a slot |
| Runs.ChangeDegreeIff | kernel/kernel.c:1180-1202 | the command sets the degree to exactly n if and only if n is at least the processes holding a slot and the manager thread holds no unused slot; a smaller n changes nothing |
| Runs.FromTheStart | kernel/kernel.c:29-47 | both laws from the configuration: the degree is the configured one until a command is accepted, and a semaphore is worth its configured value plus signals minus waits |
| Order.LightestTaken | kernel/kernel.c:743-762 | get_peso_min takes something if and only if some weight is at most 1000000, and then the first of the lightest, the others turned round it |
| Order.StepEffect | kernel/kernel.c:195-237 | what each step does to every queue, line and list, in terms of the records that move |
| Order.ReadyLaw | kernel/kernel.c:419 | ready is a queue: what was there keeps its order, only a dispatch takes the head, and whoever arrives (chosen, woken, cut off by its quantum or left by its CPU) is put behind, with the block it should have |
| Order.ReadyFifo | kernel/kernel.c:784 | over any run: those that were in ready and then those that came are, in that order, those that were dispatched and then those that are there |
| Order.RoundRobin | kernel/kernel.c:771-806 | the process at position i of ready has been dispatched after i + 1 dispatches, and not before |
| Order.DispatchLaw | kernel/kernel.c:764-803 | the head of ready goes to the first free CPU of the list, which goes to its end |
| Order.CpuLaw | kernel/kernel.c:239-284 | a CPU that lets go of its process is free at the end of the list unless it disconnects, and no step touches another one |
| Order.LineLaw | kernel/kernel.c:286-344 | a wait that blocks goes to the end of its line, a signal takes the head, and nothing else changes a line |
| Order.WakeLaw | kernel/kernel.c:571-593 | a woken process, by a signal the first in line and by a device the one served, is the last of ready and no longer among the blocked |
| Order.LineFifo | kernel/kernel.c:286-344 | over any run a semaphore wakes in the order in which processes blocked on it |
| Order.DeviceLaw | kernel/kernel.c:356-383 | a request goes to the end of the line of its device, and the device takes the head |
| Order.DeviceFifo | kernel/kernel.c:911-923 | over any run a device serves its requests in the order in which they were made |
| Order.BlockLaw | kernel/kernel.c:642-668 | a process that blocks is put behind the blocked with the block its CPU handed back |
| Order.NewLaw | kernel/kernel.c:149-159 | an admitted process is put behind the new ones with its connection, weight and block; the one taken is the first of the lightest |
| Order.ExitLaw | kernel/kernel.c:484-568 | whoever ends is put behind in exit with the reason of the event; a destruction takes the head and its segments |
| Order.ExitFifo | kernel/kernel.c:689-709 | over any run processes are destroyed, and their programs told why, in the order and for the reasons in which they ended |
| Order.AllOfTheConnection | kernel/kernel.c:605-640 | from any state: what a connection has in new, ready, block and exec goes to exit in that order, with a slot and a token for each |
| Runs.SlotLostIff | kernel/kernel.c:721-735 | a round keeps the degree if and only if some new process weighs at most 1000000; otherwise both tokens are lost and the queue is as it was |
| KernelProcess.Kernel.constructor | kernel/kernel.c:1388-1404 | starts in the initial state of the step machine |
| KernelProcess.Kernel.GetPesoMin | kernel/kernel.c:743-762 | the two rotations return the first of the lightest processes, if some weight is at most 1000000, and leave the others turned round it, or the queue as it was |
| KernelProcess.Kernel.GetPcbOtrosExec | kernel/kernel.c:670-687 | the rotation removes exactly the wanted entry or leaves the queue identical |
| KernelProcess.Kernel.SacarDeBlock | kernel/kernel.c:575-590 | the same for the block queue |
| KernelProcess.Kernel.PasarPcbBlockReady | kernel/kernel.c:571-593 | moves the process to ready, or only reports |
| KernelProcess.Kernel.BuscarPcb | kernel/kernel.c:629-640 | the search by connection removes the first match or nothing |
| KernelProcess.Kernel.AdministrarMenCpu | kernel/kernel.c:195-237 | from a state of the invariant the kernel dies of a report if and only if it comes from a CPU that runs nothing, when the handler looks for its process, or names a device that is not configured; otherwise the queues change as the laws of order say and the invariant holds again |
| KernelProcess.Kernel.IteracionNewReady | kernel/kernel.c:721-741 | from a state of the invariant, a round moves the first of the lightest new processes to the end of ready and keeps the invariant |
| KernelProcess.Kernel.IteracionReadyExec | kernel/kernel.c:771-806 | a round moves the head of ready to the end of exec and to the first free CPU, never failing to find one, and keeps the invariant |
| KernelProcess.Kernel.IteracionExit | kernel/kernel.c:689-709 | a round takes the head of exit out of the kernel and all its segments out of the memory server, tells its program the reason it carries if any, and keeps the invariant |
| KernelProcess.Kernel.MoverPcbExit | kernel/kernel.c:606-627 | refines the four searches in order |
| KernelProcess.Kernel.CerrarPrograma | kernel/kernel.c:110-127 | refines the disconnect step |
| KernelProcess.Kernel.Desalojar | kernel/kernel.c:411-414 | takes CPU and process out as specified |
| KernelProcess.Kernel.RecvActualizarPcb | kernel/kernel.c:931-939 | copies three fields out of the bytes received |
| KernelProcess.Kernel.ActualizarPcbYBloq | kernel/kernel.c:642-668 | refines the blocking step |
| KernelProcess.Kernel.ConecCerradaCpu | kernel/kernel.c:263-284 | refines the loss of a CPU |
| KernelProcess.Kernel.FinDeQuantum | kernel/kernel.c:385-430 | refines the end of a quantum, and dies exactly when that step does |
| KernelProcess.Kernel.TerminarProceso | kernel/kernel.c:484-568 | refines the normal and the erroneous end |
| KernelProcess.Kernel.EsperarSemaforo | kernel/kernel.c:286-320 | refines the wait step |
| KernelProcess.Kernel.Senalar | kernel/kernel.c:322-344 | refines the signal step |
| KernelProcess.Kernel.EnviarAIO | kernel/kernel.c:356-383 | refines the device request, a missing device included |
| KernelProcess.Kernel.NewReady | kernel/kernel.c:726-738 | refines the round of new-to-ready |
| KernelProcess.Kernel.AtenderExit | kernel/kernel.c:694-706 | refines the destruction, the memory server really losing the segments |
| KernelProcess.Kernel.TerminarIO | kernel/kernel.c:920 | refines finishing a request |
| KernelProcess.Kernel.SolicitarMem | kernel/kernel.c:864-901 | four requests succeed if and only if their sizes together are at most the free bytes; on failure the process owns nothing and other owners are unchanged; if each finds a quiet table no other process loses a byte |
| KernelProcess.Kernel.CrearSegmentos | kernel/kernel.c:810-901 | requests and writes together: what the writes touch belongs to the new process, so the same holds of the whole admission |
| KernelProcess.WritesAreOwn | kernel/kernel.c:815-833 | the three writes stay inside the segments granted |
| KernelProcess.Kernel.EscribirSegmentos | kernel/kernel.c:815-833 | each write by type fills the segment that a read by logical address returns, and nothing else |
| KernelProcess.Kernel.AdministrarNewScript | kernel/kernel.c:129-163 | admission refines the step machine with the real memory server: admitted if and only if the program fits; the control block leads to its code, its two indexes and an empty stack of the configured size at its first instruction; and if each request finds a quiet table no other process loses a byte |
| KernelProcess.Kernel.CambiarGrado | kernel/kernel.c:1180-1202 | the counting loops refine the command |

## Left out

- Sockets, `select`, threads, logging, configuration files, console menus and dumps, and the client program: input, output and user interface. A connection is a byte sequence.
- The order within exec and block is that of the rotations and decides nothing; the laws state their contents.
- Interleavings inside a handler: each handler is one step, although some queues (`cola_exec` at `kernel/kernel.c:800`, device queues) are changed without their mutex.
- Deadlock freedom: the lock orders of the handlers are cyclic. A free CPU that disconnects while its token is taken waits inside its handler; the model has no such step.
- A program that disconnects while new, ready or blocked: the original does not adjust counters and lines there (`kernel/kernel.c:613`).
- Interleaving.StepIsolated: says nothing further of a process that has lost a stay on a CPU, because its block is older than its bytes; the others and the queue invariant are covered.
- Interleaving.StepIsolated: the bytes a CPU writes during a stay appear in the shared store at its end, all at once; that they touch one entry only is `Processor.Cpu.Ejecutar`.
- What a sender or receiver does after a message it misunderstood: `Framing` says what is handed on, not what the caller makes of it.
- Runs past the first segmentation fault, writes that do not start at a variable, and frames closed by the wrong primitive: outside the refinement to an abstract stack, except for what `Calls.FaultIffExhausted`, `Calls.TwoReportsIff`, `Calls.FinalizarClosesIff` and `Calls.RetornarClosesIff` say; preemption and isolation cover them.
- The parser and the fetching of instructions: a program is any sequence of primitives, with labels already looked up and the program counter advanced by `Avanzar`.
- Shared variables and printing through the kernel: message exchanges that do not touch the modelled state. The CPU's side of `wait` and `signal` is the report the kernel step handles.
- KernelProcess.Kernel.TerminarProceso: one method for `fin_ejecucion` and `llamada_erronea`, because they differ in what they log and send.
- Processor.Cpu.RecibirUnPcb: promises nothing after a message of another type, because the original goes on with a block it has freed.
- MemoryServer.Umv.AlmacenarBytes: requires a known segment once the range tests have passed, because the original follows a null pointer otherwise.
- MemoryServer.Umv.SolicitarBytes: does not model negative sizes nor `offset + tam` beyond `int32_t`.
- MemoryServer.Umv.OrdenarListaSeg: is stated by `SegmentTable.Reordered`, because the order `list_sort` gives two segments at one address is a matter of the container library.
- SegmentTable.CompactionInvisibleIffPacked: takes the bytes at the address of the local pointer as arbitrary, because the language leaves them undefined.
- Queues, lists and dictionaries of the container library are sequences and maps; their own code is not modelled.
- `cambiar_mem_total`, segment operations of the memory server console, `asignarMemoriaAleatoria` and the waiting time of device requests.
- Overflow of `_CONTADOR_PROGRAMA` and of semaphore values.
