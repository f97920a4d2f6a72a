/** State backends (common/storage.py): atomic JSON writes with retries, a backend of one file per
    namespace, and the in-memory backend it must agree with. */
module Storage {
  import opened Options

  // ---- atomic_write_json ----

  // A file holds a complete JSON object, or something that does not parse as one.
  datatype Content<V> = Doc(data: map<string, V>) | Unparsable

  type Files<V> = map<string, Content<V>>

  datatype Rename = Renamed | PermissionDenied | OtherError

  // What the operating system will do: whether writing the temporary file succeeds, the outcome
  // of each rename attempt, and whether removing the temporary file succeeds.
  datatype Faults = Faults(writeOk: bool, renames: nat -> Rename, removeOk: bool)

  const ATTEMPTS := 6
  const FIRST_DELAY := 0.02

  function Pow2(n: nat): nat { if n == 0 then 1 else 2 * Pow2(n - 1) }

  // The delay after n retries, and the time slept by then.
  function Delay(n: nat): real { if n == 0 then FIRST_DELAY else Delay(n - 1) * 2.0 }

  function Slept(n: nat): real { if n == 0 then 0.0 else Slept(n - 1) + Delay(n - 1) }

  ghost predicate SucceedsAt(f: Faults, k: nat) {
    k < 6 && f.renames(k) == Renamed && forall j | 0 <= j < k :: f.renames(j) == PermissionDenied
  }

  // The write gets through: some attempt succeeds, and only transient locks came before it.
  ghost predicate GetsThrough(f: Faults) {
    f.writeOk && exists k :: SucceedsAt(f, k)
  }

  /** A disk, with the states it has been in: a crash leaves one of them. */
  class Disk<V> {
    var files: Files<V>
    ghost var states: seq<Files<V>>

    constructor (files: Files<V>)
      ensures this.files == files && states == [files]
    {
      this.files := files;
      states := [files];
    }

    method Write(path: string, content: Content<V>)
      modifies this
      ensures files == old(files)[path := content] && states == old(states) + [files]
    {
      files := files[path := content];
      states := states + [files];
    }

    method Remove(path: string)
      modifies this
      ensures files == old(files) - {path} && states == old(states) + [files]
    {
      files := files - {path};
      states := states + [files];
    }

    // os.replace, when it succeeds.
    method Replace(from: string, to: string)
      requires from in files
      modifies this
      ensures files == (old(files) - {from})[to := old(files)[from]] && states == old(states) + [files]
    {
      files := (files - {from})[to := files[from]];
      states := states + [files];
    }
  }

  // Apart from the temporary file, the disk is as before or has the new value at the target.
  ghost predicate OldOrNew<V>(before: Files<V>, after: Files<V>, path: string, tmp: string, data: map<string, V>) {
    after - {tmp} == before - {tmp} || after - {tmp} == (before - {tmp})[path := Doc(data)]
  }

  lemma SomethingGetsThrough(f: Faults, locked: nat)
    requires f.writeOk && locked < ATTEMPTS && f.renames(locked) == Renamed
    requires forall j | 0 <= j < locked :: f.renames(j) == PermissionDenied
    ensures GetsThrough(f)
  {
    assert SucceedsAt(f, locked);
  }

  lemma NothingGetsThrough(f: Faults, locked: nat)
    requires !f.writeOk || locked >= ATTEMPTS || f.renames(locked) == OtherError
    requires forall j | 0 <= j < locked :: f.renames(j) == PermissionDenied
    ensures !GetsThrough(f)
  {
  }

  lemma {:induction false} SleepIsGeometric(n: nat)
    ensures Delay(n) == FIRST_DELAY * Pow2(n) as real && Slept(n) == FIRST_DELAY * (Pow2(n) - 1) as real
  {
    if n > 0 {
      SleepIsGeometric(n - 1);
    }
  }

  lemma {:induction false} PowGrows(m: nat, n: nat)
    requires m <= n
    ensures 1 <= Pow2(m) <= Pow2(n)
    decreases n
  {
    if m < n {
      PowGrows(m, n - 1);
    } else if n > 0 {
      PowGrows(n - 1, n - 1);
    }
  }

  lemma SleepIsBounded(locked: nat)
    requires locked <= ATTEMPTS
    ensures Slept(locked) == 0.02 * (Pow2(locked) - 1) as real && 0.0 <= Slept(locked) <= 1.26
  {
    SleepIsGeometric(locked);
    PowGrows(locked, ATTEMPTS);
  }

  // The transient locks among the first n attempts.
  function Locks(f: Faults, n: nat): nat {
    if n == 0 then 0 else Locks(f, n - 1) + (if f.renames(n - 1) == PermissionDenied then 1 else 0)
  }

  lemma NoLockYet(f: Faults)
    ensures Locks(f, 0) == 0 && Delay(0) == FIRST_DELAY && Slept(0) == 0.0
  {
  }

  lemma OneMoreAttempt(f: Faults, attempts: nat, locked: nat)
    ensures Locks(f, attempts + 1) == Locks(f, attempts) + (if f.renames(attempts) == PermissionDenied then 1 else 0)
    ensures Delay(locked + 1) == Delay(locked) * 2.0 && Slept(locked + 1) == Slept(locked) + Delay(locked)
  {
  }

  // Returns whether the write succeeded (otherwise it raises), the number of rename attempts and
  // the total time slept.
  method AtomicWriteJson<V>(disk: Disk<V>, path: string, tmp: string, data: map<string, V>, f: Faults)
    returns (ok: bool, attempts: nat, slept: real)
    requires path != tmp
    modifies disk
    ensures ok <==> GetsThrough(f)
    ensures ok ==> disk.files == (old(disk.files) - {tmp})[path := Doc(data)]
    ensures !ok ==> disk.files - {tmp} == old(disk.files) - {tmp}
    ensures f.writeOk && (ok || f.removeOk) ==> tmp !in disk.files
    ensures old(disk.states) <= disk.states
    ensures forall s | s in disk.states[|old(disk.states)|..] :: OldOrNew(old(disk.files), s, path, tmp, data)
    ensures attempts <= 6
    ensures slept == 0.02 * (Pow2(Locks(f, attempts)) - 1) as real && 0.0 <= slept <= 1.26
  {
    hide GetsThrough, SucceedsAt, Pow2, Delay, Slept, Locks;
    NoLockYet(f);
    attempts, slept := 0, 0.0;
    ghost var before := disk.files;
    ghost var start := |disk.states|;
    disk.Write(tmp, Unparsable);
    assert disk.files - {tmp} == before - {tmp};
    if !f.writeOk {
      NothingGetsThrough(f, 0);
      SleepIsBounded(0);
      return false, 0, 0.0;
    }
    disk.Write(tmp, Doc(data));
    assert disk.files - {tmp} == before - {tmp};
    var delay := FIRST_DELAY;
    var broken := false;
    ghost var locked: nat := 0;
    while attempts < ATTEMPTS && !broken
      invariant locked <= attempts <= ATTEMPTS && attempts == locked + (if broken then 1 else 0)
      invariant disk.files - {tmp} == before - {tmp} && tmp in disk.files && disk.files[tmp] == Doc(data)
      invariant old(disk.states) <= disk.states
      invariant forall s | s in disk.states[start..] :: OldOrNew(before, s, path, tmp, data)
      invariant delay == Delay(locked) && slept == Slept(locked) && locked == Locks(f, attempts)
      invariant broken ==> f.renames(locked) == OtherError
      invariant forall j | 0 <= j < locked :: f.renames(j) == PermissionDenied
      decreases ATTEMPTS - attempts, !broken
    {
      var outcome := f.renames(attempts);
      OneMoreAttempt(f, attempts, locked);
      attempts := attempts + 1;
      match outcome {
        case Renamed =>
          disk.Replace(tmp, path);
          assert disk.files == (before - {tmp})[path := Doc(data)];
          SomethingGetsThrough(f, locked);
          SleepIsBounded(locked);
          return true, attempts, slept;
        case PermissionDenied =>
          slept := slept + delay;
          delay := delay * 2.0;
          locked := locked + 1;
        case OtherError =>
          broken := true;
      }
    }
    SleepIsBounded(locked);
    NothingGetsThrough(f, locked);
    if f.removeOk {
      disk.Remove(tmp);
      assert disk.files - {tmp} == before - {tmp};
    }
    return false, attempts, slept;
  }

  // ---- One file per namespace ----

  // Where a file backend keeps things. `alnum` is str.isalnum on one character; `fold` tells which
  // letters the file system takes for the same: none on POSIX, upper and lower case on Windows.
  datatype Location = Location(directory: string, pid: string, alnum: char -> bool, fold: char -> char)

  predicate Keeps(loc: Location, c: char) {
    loc.alnum(c) || c == '-' || c == '_'
  }

  // The name of a namespace's file, as far as the file system tells names apart.
  function Safe(loc: Location, namespace: string): string {
    if namespace == "" then ""
    else (if Keeps(loc, namespace[0]) then [loc.fold(namespace[0])] else "") + Safe(loc, namespace[1..])
  }

  function Folded(loc: Location, name: string): string {
    seq(|name|, i requires 0 <= i < |name| => loc.fold(name[i]))
  }

  const EXTENSION := ".json"

  function PathOf(loc: Location, namespace: string): string {
    loc.directory + "/" + Safe(loc, namespace) + EXTENSION
  }

  function TmpOf(loc: Location, namespace: string): string {
    PathOf(loc, namespace) + "." + loc.pid + ".tmp"
  }

  lemma TemporaryIsNoNamespace(loc: Location, a: string, b: string)
    ensures TmpOf(loc, a) != PathOf(loc, b)
  {
    var t, p := TmpOf(loc, a), PathOf(loc, b);
    assert t[|t| - 1] == 'p' && p[|p| - 1] == 'n';
  }

  // Two namespaces share a file exactly when they are equal after dropping the other characters
  // and folding letters.
  lemma SharedFile(loc: Location, a: string, b: string)
    ensures PathOf(loc, a) == PathOf(loc, b) <==> Safe(loc, a) == Safe(loc, b)
  {
    var x, y, d := Safe(loc, a), Safe(loc, b), loc.directory + "/";
    if PathOf(loc, a) == PathOf(loc, b) {
      assert |d + x + EXTENSION| == |d + y + EXTENSION|;
      assert x == (d + x + EXTENSION)[|d|..|d| + |x|];
      assert y == (d + y + EXTENSION)[|d|..|d| + |y|];
    }
  }

  lemma {:induction false} KeptNameIsSafe(loc: Location, namespace: string)
    requires forall c | c in namespace :: Keeps(loc, c)
    ensures Safe(loc, namespace) == Folded(loc, namespace)
  {
    if namespace != "" {
      KeptNameIsSafe(loc, namespace[1..]);
      assert [loc.fold(namespace[0])] + Folded(loc, namespace[1..]) == Folded(loc, namespace);
    }
  }

  lemma {:induction false} SafeJoins(loc: Location, a: string, b: string)
    ensures Safe(loc, a + b) == Safe(loc, a) + Safe(loc, b)
  {
    if a == "" {
      assert a + b == b;
    } else {
      assert (a + b)[1..] == a[1..] + b;
      SafeJoins(loc, a[1..], b);
    }
  }

  // Any other character makes no difference to the file: putting it in anywhere names the same file.
  lemma OtherCharactersAreDropped(loc: Location, a: string, c: char, b: string)
    requires !loc.alnum(c) && c != '-' && c != '_'
    ensures PathOf(loc, a + [c] + b) == PathOf(loc, a + b)
  {
    SafeJoins(loc, a, b);
    SafeJoins(loc, a, [c]);
    SafeJoins(loc, a + [c], b);
  }

  // ---- The two backends as functions ----

  datatype Op<V> =
    | Get(namespace: string, key: string)
    | Set(namespace: string, key: string, value: V)
    | Delete(namespace: string, key: string)
    | All(namespace: string)
    | ReplaceNamespace(namespace: string, mapping: map<string, V>)
    | Restart    // of the process; the file backend keeps nothing in memory

  // Found(None) is the default of get.
  datatype Answer<V> = Found(value: Option<V>) | Mapping(data: map<string, V>) | Done | Raised

  type Memory<V> = map<string, map<string, V>>

  function Space<V>(m: Memory<V>, namespace: string): map<string, V> {
    if namespace in m then m[namespace] else map[]
  }

  function Lookup<V>(data: map<string, V>, key: string): Answer<V> {
    Found(if key in data then Some(data[key]) else None)
  }

  // MemoryBackend, kept alive across restarts.
  function InMemory<V>(m: Memory<V>, op: Op<V>): (Memory<V>, Answer<V>) {
    match op
    case Get(ns, key) => (m, Lookup(Space(m, ns), key))
    case Set(ns, key, value) => (m[ns := Space(m, ns)[key := value]], Done)
    case Delete(ns, key) => (if ns in m then m[ns := m[ns] - {key}] else m, Done)
    case All(ns) => (m, Mapping(Space(m, ns)))
    case ReplaceNamespace(ns, mapping) => (m[ns := mapping], Done)
    case Restart => (m, Done)
  }

  // What the memory backend holds under a key.
  function Held<V>(m: Memory<V>, namespace: string, key: string): Option<V> {
    if namespace in m && key in m[namespace] then Some(m[namespace][key]) else None
  }

  // Each namespace is a dictionary of its own: a read finds what was last set there, a delete
  // takes away one key, a replacement all of them, and no operation touches another namespace.
  lemma NamespacesAreDictionaries<V>(m: Memory<V>, op: Op<V>, namespace: string, key: string)
    ensures var (m', answer) := InMemory(m, op);
            && Held(m', namespace, key) ==
                 (match op
                  case Set(ns, k, value) => if ns == namespace && k == key then Some(value) else Held(m, namespace, key)
                  case Delete(ns, k) => if ns == namespace && k == key then None else Held(m, namespace, key)
                  case ReplaceNamespace(ns, mapping) =>
                    if ns != namespace then Held(m, namespace, key) else if key in mapping then Some(mapping[key]) else None
                  case _ => Held(m, namespace, key))
            && (op == Get(namespace, key) ==> answer == Found(Held(m, namespace, key)))
            && (op == All(namespace) ==>
                  answer.Mapping? && (if key in answer.data then Some(answer.data[key]) else None) == Held(m, namespace, key))
            && (op.Set? || op.Delete? || op.ReplaceNamespace? ==> answer == Done)
  {
  }

  // Whether the file backend writes: a delete of an absent key does not.
  predicate Writes<V>(data: map<string, V>, op: Op<V>) {
    op.Set? || op.ReplaceNamespace? || (op.Delete? && op.key in data)
  }

  // What is promised: the memory backend's answer, or an exception and no change at all.
  function Promised<V>(m: Memory<V>, op: Op<V>, writeOk: bool): (Memory<V>, Answer<V>) {
    if !op.Restart? && Writes(Space(m, op.namespace), op) && !writeOk then (m, Raised) else InMemory(m, op)
  }

  // Only a write can raise, and only one the operating system fails: reads do not, nor does the
  // delete of an absent key. A call that raises changes nothing.
  lemma RaisesIff<V>(m: Memory<V>, op: Op<V>, writeOk: bool)
    ensures var (m', answer) := Promised(m, op, writeOk);
            && (answer == Raised <==>
                  !writeOk && (op.Set? || op.ReplaceNamespace? || (op.Delete? && Held(m, op.namespace, op.key).Some?)))
            && (m', answer) == if answer == Raised then (m, Raised) else InMemory(m, op)
  {
  }

  function Load<V>(files: Files<V>, path: string): map<string, V> {
    if path in files && files[path].Doc? then files[path].data else map[]
  }

  // The data a write puts into the namespace's file.
  function Updated<V>(data: map<string, V>, op: Op<V>): map<string, V>
    requires Writes(data, op)
  {
    match op
    case Set(_, key, value) => data[key := value]
    case Delete(_, key) => data - {key}
    case ReplaceNamespace(_, mapping) => mapping
  }

  function OnFiles<V>(loc: Location, files: Files<V>, op: Op<V>, writeOk: bool): (Files<V>, Answer<V>) {
    if op.Restart? then (files, Done)
    else
      var path := PathOf(loc, op.namespace);
      var data := Load(files, path);
      if Writes(data, op) then
        if writeOk then (files[path := Doc(Updated(data, op))], Done) else (files, Raised)
      else match op
        case Get(_, key) => (files, Lookup(data, key))
        case All(_) => (files, Mapping(data))
        case _ => (files, Done)
  }

  /** MemoryBackend */
  class MemoryBackend<V> {
    var data: Memory<V>

    constructor ()
      ensures data == map[]
    {
      data := map[];
    }

    method Get(namespace: string, key: string) returns (value: Option<V>)
      ensures (data, Found(value)) == InMemory(data, Op.Get(namespace, key))
    {
      if namespace in data && key in data[namespace] {
        return Some(data[namespace][key]);
      }
      return None;
    }

    method Set(namespace: string, key: string, value: V)
      modifies this
      ensures (data, Done) == InMemory(old(data), Op.Set(namespace, key, value))
    {
      if namespace !in data {
        data := data[namespace := map[]];
      }
      data := data[namespace := data[namespace][key := value]];
      assert data == old(data)[namespace := Space(old(data), namespace)[key := value]];
    }

    method Delete(namespace: string, key: string)
      modifies this
      ensures (data, Done) == InMemory(old(data), Op.Delete(namespace, key))
    {
      if namespace in data {
        data := data[namespace := data[namespace] - {key}];
      }
    }

    method All(namespace: string) returns (copy: map<string, V>)
      ensures (data, Mapping(copy)) == InMemory(data, Op.All(namespace))
    {
      copy := Space(data, namespace);
    }

    method ReplaceNamespace(namespace: string, mapping: map<string, V>)
      modifies this
      ensures (data, Done) == InMemory(old(data), Op.ReplaceNamespace(namespace, mapping))
    {
      data := data[namespace := mapping];
    }
  }

  ghost predicate IsNamespaceFile(loc: Location, path: string) {
    exists namespace :: path == PathOf(loc, namespace)
  }

  // The files of namespaces. Temporary files, even those that failed writes leave behind, are not.
  ghost function OfNamespaces<V>(loc: Location, files: Files<V>): Files<V> {
    map path | path in files && IsNamespaceFile(loc, path) :: files[path]
  }

  lemma LoadOfNamespace<V>(loc: Location, files: Files<V>, namespace: string)
    ensures Load(OfNamespaces(loc, files), PathOf(loc, namespace)) == Load(files, PathOf(loc, namespace))
  {
    assert IsNamespaceFile(loc, PathOf(loc, namespace));
  }

  // What a write that leaves all but a temporary file and the target alone does to them.
  lemma WriteToNamespace<V>(loc: Location, before: Files<V>, after: Files<V>, namespace: string, data: map<string, V>, ok: bool)
    requires var tmp := TmpOf(loc, namespace);
             if ok then after == (before - {tmp})[PathOf(loc, namespace) := Doc(data)] else after - {tmp} == before - {tmp}
    ensures OfNamespaces(loc, after) ==
              if ok then OfNamespaces(loc, before)[PathOf(loc, namespace) := Doc(data)] else OfNamespaces(loc, before)
  {
    var path, tmp := PathOf(loc, namespace), TmpOf(loc, namespace);
    assert IsNamespaceFile(loc, path);
    assert !IsNamespaceFile(loc, tmp) by {
      forall ns ensures tmp != PathOf(loc, ns) {
        TemporaryIsNoNamespace(loc, namespace, ns);
      }
    }
    forall p | IsNamespaceFile(loc, p) && p != path
      ensures p in after <==> p in before
      ensures p in after ==> after[p] == before[p]
    {
      assert p in after - {tmp} <==> p in before - {tmp} || (ok && p == path);
      assert p in after ==> (after - {tmp})[p] == after[p];
      assert p in before ==> (before - {tmp})[p] == before[p];
    }
    if !ok {
      assert path in after - {tmp} <==> path in before - {tmp};
      assert path in after ==> (after - {tmp})[path] == after[path] && (before - {tmp})[path] == before[path];
    }
  }

  /** FileBackend */
  class FileBackend<V> {
    const loc: Location
    const disk: Disk<V>

    constructor (loc: Location, disk: Disk<V>)
      ensures this.loc == loc && this.disk == disk
    {
      this.loc, this.disk := loc, disk;
    }

    ghost function View(): Files<V>
      reads disk
    {
      OfNamespaces(loc, disk.files)
    }

    method LoadNamespace(namespace: string) returns (data: map<string, V>)
      ensures data == Load(View(), PathOf(loc, namespace))
    {
      var path := PathOf(loc, namespace);
      LoadOfNamespace(loc, disk.files, namespace);
      if path !in disk.files {
        return map[];
      }
      match disk.files[path] {
        case Doc(stored) => return stored;
        case Unparsable => return map[];
      }
    }

    method SaveNamespace(namespace: string, data: map<string, V>, f: Faults) returns (ok: bool)
      modifies disk
      ensures ok == GetsThrough(f)
      ensures View() == if ok then old(View())[PathOf(loc, namespace) := Doc(data)] else old(View())
    {
      var path, tmp := PathOf(loc, namespace), TmpOf(loc, namespace);
      TemporaryIsNoNamespace(loc, namespace, namespace);
      var attempts, slept;
      ghost var before := disk.files;
      ok, attempts, slept := AtomicWriteJson(disk, path, tmp, data, f);
      WriteToNamespace(loc, before, disk.files, namespace, data, ok);
    }

    // The writing operations return whether they completed; otherwise they raise.

    method Get(namespace: string, key: string) returns (value: Option<V>)
      ensures (View(), Found(value)) == OnFiles(loc, View(), Op.Get(namespace, key), true)
    {
      var data := LoadNamespace(namespace);
      value := if key in data then Some(data[key]) else None;
    }

    method Set(namespace: string, key: string, value: V, f: Faults) returns (ok: bool)
      modifies disk
      ensures (View(), if ok then Done else Raised) == OnFiles(loc, old(View()), Op.Set(namespace, key, value), GetsThrough(f))
    {
      var data := LoadNamespace(namespace);
      data := data[key := value];
      ok := SaveNamespace(namespace, data, f);
    }

    method Delete(namespace: string, key: string, f: Faults) returns (ok: bool)
      modifies disk
      ensures (View(), if ok then Done else Raised) == OnFiles(loc, old(View()), Op.Delete(namespace, key), GetsThrough(f))
    {
      var data := LoadNamespace(namespace);
      ok := true;
      if key in data {
        data := data - {key};
        ok := SaveNamespace(namespace, data, f);
      }
    }

    method All(namespace: string) returns (data: map<string, V>)
      ensures (View(), Mapping(data)) == OnFiles(loc, View(), Op.All(namespace), true)
    {
      data := LoadNamespace(namespace);
    }

    method ReplaceNamespace(namespace: string, mapping: map<string, V>, f: Faults) returns (ok: bool)
      modifies disk
      ensures (View(), if ok then Done else Raised)
           == OnFiles(loc, old(View()), Op.ReplaceNamespace(namespace, mapping), GetsThrough(f))
    {
      ok := SaveNamespace(namespace, mapping, f);
    }

    // Any one call; a writing one that does not complete raises.
    method Perform(op: Op<V>, f: Faults) returns (answer: Answer<V>)
      requires !op.Restart?
      modifies disk
      ensures (View(), answer) == OnFiles(loc, old(View()), op, GetsThrough(f))
    {
      var ok := true;
      match op {
        case Get(namespace, key) =>
          var value := Get(namespace, key);
          return Found(value);
        case Set(namespace, key, value) => ok := Set(namespace, key, value, f);
        case Delete(namespace, key) => ok := Delete(namespace, key, f);
        case All(namespace) =>
          var data := All(namespace);
          return Mapping(data);
        case ReplaceNamespace(namespace, mapping) => ok := ReplaceNamespace(namespace, mapping, f);
      }
      return if ok then Done else Raised;
    }
  }

  // ---- Refinement ----

  ghost predicate Separate(loc: Location, names: set<string>) {
    forall a, b | a in names && b in names && Safe(loc, a) == Safe(loc, b) :: a == b
  }

  ghost predicate Agree<V>(loc: Location, names: set<string>, files: Files<V>, m: Memory<V>) {
    forall ns | ns in names :: Load(files, PathOf(loc, ns)) == Space(m, ns)
  }

  // An operation and whether its write, if any, gets through.
  type Call<V> = (Op<V>, bool)

  ghost predicate Within<V>(calls: seq<Call<V>>, names: set<string>) {
    forall c | c in calls :: c.0.Restart? || c.0.namespace in names
  }

  function FileRun<V>(loc: Location, files: Files<V>, calls: seq<Call<V>>): seq<Answer<V>>
    decreases |calls|
  {
    if calls == [] then []
    else
      var (files', a) := OnFiles(loc, files, calls[0].0, calls[0].1);
      [a] + FileRun(loc, files', calls[1..])
  }

  function PromisedRun<V>(m: Memory<V>, calls: seq<Call<V>>): seq<Answer<V>>
    decreases |calls|
  {
    if calls == [] then []
    else
      var (m', a) := Promised(m, calls[0].0, calls[0].1);
      [a] + PromisedRun(m', calls[1..])
  }

  lemma OneCallAgrees<V>(loc: Location, names: set<string>, files: Files<V>, m: Memory<V>, op: Op<V>, writeOk: bool)
    requires Separate(loc, names) && Agree(loc, names, files, m) && (op.Restart? || op.namespace in names)
    ensures var (files', a) := OnFiles(loc, files, op, writeOk);
            var (m', b) := Promised(m, op, writeOk);
            a == b && Agree(loc, names, files', m')
  {
    if !op.Restart? {
      forall ns | ns in names && ns != op.namespace ensures PathOf(loc, ns) != PathOf(loc, op.namespace) {
        SharedFile(loc, ns, op.namespace);
      }
      hide PathOf, Safe;
      var data := Space(m, op.namespace);
      if op.Delete? && op.key !in data {
        assert data - {op.key} == data;
      }
    }
  }

  lemma {:induction false} RunsAgree<V>(loc: Location, names: set<string>, files: Files<V>, m: Memory<V>, calls: seq<Call<V>>)
    requires Separate(loc, names) && Agree(loc, names, files, m) && Within(calls, names)
    ensures FileRun(loc, files, calls) == PromisedRun(m, calls)
    decreases |calls|
  {
    if calls != [] {
      OneCallAgrees(loc, names, files, m, calls[0].0, calls[0].1);
      RunsAgree(loc, names, OnFiles(loc, files, calls[0].0, calls[0].1).0, Promised(m, calls[0].0, calls[0].1).0, calls[1..]);
    }
  }

  lemma SharedFileDisagrees<V>(loc: Location, a: string, b: string, v: V, calls: seq<Call<V>>)
    requires a != b && Safe(loc, a) == Safe(loc, b)
    requires calls == [(Set(a, "", v), true), (Get(b, ""), true)]
    ensures FileRun(loc, map[], calls) != PromisedRun(map[], calls)
  {
    SharedFile(loc, a, b);
    var path := PathOf(loc, a);
    var files: Files<V> := map[path := Doc(map["" := v])];
    var m: Memory<V> := map[a := map["" := v]];
    assert OnFiles<V>(loc, map[], calls[0].0, true) == (files, Done);
    assert Promised<V>(map[], calls[0].0, true) == (m, Done);
    var rest := calls[1..];
    assert FileRun(loc, map[], calls) == [Done] + FileRun(loc, files, rest);
    assert PromisedRun(map[], calls) == [Done] + PromisedRun(m, rest);
    assert FileRun(loc, files, rest)[0] == Found(Some(v)) && PromisedRun(m, rest)[0] == Found(None);
    assert FileRun(loc, map[], calls)[1] != PromisedRun(map[], calls)[1];
  }

  // Starting empty, every sequence of calls on the given namespaces, restarts and failed writes
  // included, is answered as promised: exactly when no two of the namespaces share a file.
  lemma BackendRefinement<V>(loc: Location, names: set<string>, v: V)
    ensures Separate(loc, names) <==>
            forall calls: seq<Call<V>> | Within(calls, names) :: FileRun(loc, map[], calls) == PromisedRun(map[], calls)
  {
    if Separate(loc, names) {
      forall calls: seq<Call<V>> | Within(calls, names) ensures FileRun(loc, map[], calls) == PromisedRun(map[], calls) {
        RunsAgree(loc, names, map[], map[], calls);
      }
    } else {
      var a, b :| a in names && b in names && Safe(loc, a) == Safe(loc, b) && a != b;
      var calls: seq<Call<V>> := [(Set(a, "", v), true), (Get(b, ""), true)];
      SharedFileDisagrees(loc, a, b, v, calls);
      assert Within(calls, names);
    }
  }

  // In particular for namespaces made only of kept characters, no two of which differ only in
  // letters the file system takes for the same.
  lemma KeptNamesRefine<V>(loc: Location, names: set<string>, v: V, calls: seq<Call<V>>)
    requires forall ns, c | ns in names && c in ns :: loc.alnum(c) || c == '-' || c == '_'
    requires forall a, b | a in names && b in names && Folded(loc, a) == Folded(loc, b) :: a == b
    requires Within(calls, names)
    ensures FileRun(loc, map[], calls) == PromisedRun(map[], calls)
  {
    forall a, b | a in names && b in names && Safe(loc, a) == Safe(loc, b) ensures a == b {
      KeptNameIsSafe(loc, a);
      KeptNameIsSafe(loc, b);
    }
    BackendRefinement(loc, names, v);
  }

  // ---- The backend objects, call after call ----

  // One call by a client, what the operating system will do to its write, and the process id that
  // a restarted process gets.
  datatype Request<V> = Request(op: Op<V>, faults: Faults, pid: string)

  ghost function Calls<V>(requests: seq<Request<V>>): seq<Call<V>> {
    seq(|requests|, i requires 0 <= i < |requests| => (requests[i].op, GetsThrough(requests[i].faults)))
  }

  lemma {:induction false} SafeIgnoresPid(loc: Location, pid: string, namespace: string)
    ensures Safe(loc.(pid := pid), namespace) == Safe(loc, namespace)
  {
    if namespace != "" {
      SafeIgnoresPid(loc, pid, namespace[1..]);
    }
  }

  lemma FilesIgnorePid<V>(loc: Location, pid: string, files: Files<V>)
    ensures forall namespace :: PathOf(loc.(pid := pid), namespace) == PathOf(loc, namespace)
    ensures OfNamespaces(loc.(pid := pid), files) == OfNamespaces(loc, files)
  {
    forall namespace ensures PathOf(loc.(pid := pid), namespace) == PathOf(loc, namespace) {
      SafeIgnoresPid(loc, pid, namespace);
    }
    forall path ensures IsNamespaceFile(loc.(pid := pid), path) <==> IsNamespaceFile(loc, path) {
      if namespace :| path == PathOf(loc.(pid := pid), namespace) {
        assert path == PathOf(loc, namespace);
      }
      if namespace :| path == PathOf(loc, namespace) {
        assert path == PathOf(loc.(pid := pid), namespace);
      }
    }
  }

  // A client of the file backend that starts with an empty directory and goes on across restarts
  // of its process, whatever its failed writes leave on the disk.
  method UseFileBackend<V>(loc: Location, disk: Disk<V>, requests: seq<Request<V>>) returns (answers: seq<Answer<V>>)
    requires disk.files == map[]
    modifies disk
    ensures answers == FileRun(loc, map[], Calls(requests))
  {
    hide IsNamespaceFile, GetsThrough, PathOf, Load;
    answers := [];
    var backend := new FileBackend(loc, disk);
    ghost var calls := Calls(requests);
    assert calls[0..] == calls;
    for i := 0 to |requests|
      invariant backend.disk == disk && backend.loc == loc.(pid := backend.loc.pid)
      invariant answers + FileRun(loc, OfNamespaces(loc, disk.files), calls[i..]) == FileRun(loc, map[], calls)
    {
      ghost var files := OfNamespaces(loc, disk.files);
      var answer := Done;
      FilesIgnorePid(loc, backend.loc.pid, disk.files);
      if requests[i].op.Restart? {
        backend := new FileBackend(loc.(pid := requests[i].pid), disk);
      } else {
        answer := backend.Perform(requests[i].op, requests[i].faults);
      }
      FilesIgnorePid(loc, backend.loc.pid, disk.files);
      assert (OfNamespaces(loc, disk.files), answer) == OnFiles(loc, files, calls[i].0, calls[i].1);
      assert calls[i..][0] == calls[i] && calls[i..][1..] == calls[i + 1..];
      answers := answers + [answer];
    }
    assert calls[|requests|..] == [];
  }
}
