/**
 * Importing a managed profile on Android: credentials go to the secret store, the rest of the
 * document to a preference map that also holds an undo journal. Every store write may be done,
 * may throw and leave the store as it was, or may be where the process dies.
 */
module ProfileImport {
  import opened Wrappers

  // ---- Storage ----

  /** The preference map (documents and journals) and the secret store, both keyed by strings. */
  datatype Storage = Storage(prefs: map<string, string>, secrets: map<string, string>)

  predicate DistinctNames<V>(s: seq<(string, V)>) {
    forall i, j :: 0 <= i < j < |s| ==> s[i].0 != s[j].0
  }

  /** The entries of a map from names, in the order in which it is walked. */
  type Named<V> = s: seq<(string, V)> | DistinctNames(s) witness []

  /** What an import saves before it starts: the document, and each secret it is about to write. */
  datatype Journal = Journal(document: Option<string>, secrets: Named<Option<string>>)

  /** The JSON form of a journal. Text that is not a journal has no decoding. */
  datatype Codec = Codec(encode: Journal -> string, decode: string -> Option<Journal>)

  ghost predicate Lawful(c: Codec) {
    forall j :: c.decode(c.encode(j)) == Some(j)
  }

  /** A validated profile: its id, its credentials, and its document without them. */
  datatype Request = Request(id: string, credentials: Named<string>, document: string)

  predicate ValidId(id: string) {
    && 3 <= |id| <= 64
    && 'a' <= id[0] <= 'z'
    && forall i :: 0 <= i < |id| ==> 'a' <= id[i] <= 'z' || '0' <= id[i] <= '9' || id[i] == '-'
  }

  /** An id is three to 64 small letters, digits and hyphens, the first a letter; read here by their codes. */
  lemma ValidIdExactly(id: string)
    ensures ValidId(id) <==>
      && 3 <= |id| <= 64 && 97 <= id[0] as int <= 122
      && forall c :: c in id ==> 97 <= c as int <= 122 || 48 <= c as int <= 57 || c as int == 45
  {
    forall i | 0 <= i < |id| ensures id[i] in id {}
  }

  function JournalKey(id: string): string { "__journal__:" + id }

  function SecretKey(id: string, name: string): string { "profile:" + id + ":" + name }

  /** A document key starts with a letter, a journal key with an underscore, and each names one profile. */
  lemma JournalKeysApart(id: string, other: string)
    requires ValidId(id)
    ensures JournalKey(other) != id
    ensures JournalKey(id) == JournalKey(other) ==> id == other
  {
    assert JournalKey(other)[0] == '_';
    assert JournalKey(id)[12..] == id && JournalKey(other)[12..] == other;
  }

  lemma SecretKeyParts(id: string, name: string)
    ensures var k := SecretKey(id, name);
      |k| == 9 + |id| + |name| && k[8..8 + |id|] == id && k[8 + |id|] == ':' && k[9 + |id|..] == name
  {
    var front := "profile:" + id;
    assert SecretKey(id, name) == front + ":" + name;
    assert (front + ":" + name)[..8 + |id|] == front && (front + ":" + name)[9 + |id|..] == name;
    assert front[8..] == id;
  }

  /** A valid id holds no colon, so a secret key determines both its profile and its name. */
  lemma SecretKeyInjective(id: string, name: string, other: string, otherName: string)
    requires ValidId(id) && ValidId(other)
    ensures SecretKey(id, name) == SecretKey(other, otherName) ==> id == other && name == otherName
  {
    SecretKeyParts(id, name);
    SecretKeyParts(other, otherName);
    if SecretKey(id, name) == SecretKey(other, otherName) {
      ColonEndsId(SecretKey(id, name), id, other);
      ColonEndsId(SecretKey(id, name), other, id);
    }
  }

  lemma ColonEndsId(k: string, id: string, other: string)
    requires ValidId(other) && |k| >= 9 + |id| && |k| >= 9 + |other|
    requires k[8 + |id|] == ':' && k[8..8 + |other|] == other
    ensures |id| >= |other|
  {
    var i := if |id| < |other| then |id| else 0;
    assert other[i] == k[8 + i] && other[i] != ':';
  }

  // ---- One write, and runs of writes ----

  datatype Write =
    | PutPref(key: string, value: string) | RemovePref(key: string)
    | PutSecret(key: string, value: string) | DeleteSecret(key: string)

  datatype Fault = Done | Throws | Dies

  datatype Progress = Completed | Threw | Crashed

  /** The storage reached, the faults not yet used up, and how the code came to a halt. */
  datatype Ran = Ran(storage: Storage, faults: seq<Fault>, progress: Progress)

  function Apply(st: Storage, w: Write): Storage {
    match w
    case PutPref(k, v) => st.(prefs := st.prefs[k := v])
    case RemovePref(k) => st.(prefs := st.prefs - {k})
    case PutSecret(k, v) => st.(secrets := st.secrets[k := v])
    case DeleteSecret(k) => st.(secrets := st.secrets - {k})
  }

  function ApplyAll(st: Storage, ws: seq<Write>): Storage
    decreases |ws|
  {
    if ws == [] then st else ApplyAll(Apply(st, ws[0]), ws[1..])
  }

  /** The next fault of a schedule; a schedule that has run out has no more failures. */
  function Next(fs: seq<Fault>): Fault {
    if fs == [] then Done else fs[0]
  }

  function Rest(fs: seq<Fault>): seq<Fault> {
    if fs == [] then [] else fs[1..]
  }

  /** Writes in order until one throws or the process dies. */
  function Strict(st: Storage, ws: seq<Write>, fs: seq<Fault>): Ran
    decreases |ws|
  {
    if ws == [] then Ran(st, fs, Completed)
    else
      match Next(fs)
      case Done => Strict(Apply(st, ws[0]), ws[1..], Rest(fs))
      case Throws => Ran(st, Rest(fs), Threw)
      case Dies => Ran(st, Rest(fs), Crashed)
  }

  lemma StrictOne(st: Storage, w: Write, fs: seq<Fault>)
    ensures Strict(st, [w], fs) ==
      match Next(fs)
      case Done => Ran(Apply(st, w), Rest(fs), Completed)
      case Throws => Ran(st, Rest(fs), Threw)
      case Dies => Ran(st, Rest(fs), Crashed)
  {
    assert [w][1..] == [];
  }

  /** Writes in order, each in its own runCatching: a write that throws is skipped. */
  function Swallowing(st: Storage, ws: seq<Write>, fs: seq<Fault>): Ran
    decreases |ws|
  {
    if ws == [] then Ran(st, fs, Completed)
    else
      match Next(fs)
      case Done => Swallowing(Apply(st, ws[0]), ws[1..], Rest(fs))
      case Throws => Swallowing(st, ws[1..], Rest(fs))
      case Dies => Ran(st, Rest(fs), Crashed)
  }

  // ---- The import ----

  function Get(m: map<string, string>, k: string): Option<string> {
    if k in m then Some(m[k]) else None
  }

  function RestoreDocument(id: string, document: Option<string>): Write {
    if document.Some? then PutPref(id, document.value) else RemovePref(id)
  }

  function RestoreSecret(id: string, name: string, value: Option<string>): Write {
    if value.Some? then PutSecret(SecretKey(id, name), value.value) else DeleteSecret(SecretKey(id, name))
  }

  function SecretRestores(id: string, s: seq<(string, Option<string>)>): (ws: seq<Write>)
    ensures |ws| == |s| && forall i :: 0 <= i < |s| ==> ws[i] == RestoreSecret(id, s[i].0, s[i].1)
  {
    if s == [] then [] else [RestoreSecret(id, s[0].0, s[0].1)] + SecretRestores(id, s[1..])
  }

  function Restores(id: string, j: Journal): seq<Write> {
    [RestoreDocument(id, j.document)] + SecretRestores(id, j.secrets)
  }

  function SecretWrites(id: string, s: seq<(string, string)>): (ws: seq<Write>)
    ensures |ws| == |s| && forall i :: 0 <= i < |s| ==> ws[i] == PutSecret(SecretKey(id, s[i].0), s[i].1)
  {
    if s == [] then [] else [PutSecret(SecretKey(id, s[0].0), s[0].1)] + SecretWrites(id, s[1..])
  }

  function ImportWrites(r: Request): seq<Write> {
    SecretWrites(r.id, r.credentials) + [PutPref(r.id, r.document), RemovePref(JournalKey(r.id))]
  }

  function PreviousSecrets(st: Storage, id: string, s: seq<(string, string)>): (p: seq<(string, Option<string>)>)
    ensures |p| == |s|
    ensures forall i :: 0 <= i < |s| ==> p[i] == (s[i].0, Get(st.secrets, SecretKey(id, s[i].0)))
  {
    if s == [] then [] else [(s[0].0, Get(st.secrets, SecretKey(id, s[0].0)))] + PreviousSecrets(st, id, s[1..])
  }

  function Snapshot(st: Storage, r: Request): Journal {
    Journal(Get(st.prefs, r.id), PreviousSecrets(st, r.id, r.credentials))
  }

  /** recoverInterruptedImport: undo from the journal, then clear it. */
  function Recover(c: Codec, st: Storage, id: string, fs: seq<Fault>): Ran {
    if JournalKey(id) !in st.prefs then Ran(st, fs, Completed)
    else
      match c.decode(st.prefs[JournalKey(id)])
      case None => Ran(st, fs, Threw)
      case Some(j) => Strict(st, Restores(id, j) + [RemovePref(JournalKey(id))], fs)
  }

  /** The catch block: restores whose failures are swallowed, then the journal is cleared. */
  function Undo(st: Storage, id: string, j: Journal, fs: seq<Fault>): Ran {
    var undone := Swallowing(st, Restores(id, j), fs);
    if undone.progress == Crashed then undone
    else
      var cleared := Strict(undone.storage, [RemovePref(JournalKey(id))], undone.faults);
      cleared.(progress := if cleared.progress == Crashed then Crashed else Threw)
  }

  /** importProfile on a profile that has been validated. */
  function Import(c: Codec, st: Storage, r: Request, fs: seq<Fault>): Ran {
    var recovered := Recover(c, st, r.id, fs);
    if recovered.progress != Completed then recovered
    else
      var j := Snapshot(recovered.storage, r);
      var logged := Strict(recovered.storage, [PutPref(JournalKey(r.id), c.encode(j))], recovered.faults);
      if logged.progress != Completed then logged
      else
        var tried := Strict(logged.storage, ImportWrites(r), logged.faults);
        if tried.progress != Threw then tried else Undo(tried.storage, r.id, j, tried.faults)
  }

  // ---- The service as the source writes it ----

  class ProfileImportService {
    const codec: Codec
    var prefs: map<string, string>
    var secrets: map<string, string>
    var faults: seq<Fault>

    constructor (codec: Codec, storage: Storage, faults: seq<Fault>)
      ensures this.codec == codec && Stored() == storage && this.faults == faults
    {
      this.codec := codec;
      this.prefs := storage.prefs;
      this.secrets := storage.secrets;
      this.faults := faults;
    }

    ghost function Stored(): Storage
      reads this
    {
      Storage(prefs, secrets)
    }

    /** One durable write of either store. */
    method Perform(w: Write) returns (f: Fault)
      modifies this
      ensures f == Next(old(faults)) && faults == Rest(old(faults))
      ensures Stored() == if f == Done then Apply(old(Stored()), w) else old(Stored())
    {
      f := Next(faults);
      faults := Rest(faults);
      if f == Done {
        match w
        case PutPref(k, v) => prefs := prefs[k := v];
        case RemovePref(k) => prefs := prefs - {k};
        case PutSecret(k, v) => secrets := secrets[k := v];
        case DeleteSecret(k) => secrets := secrets - {k};
      }
    }

    /** Writes in order, stopping at the first that throws or where the process dies. */
    method PerformAll(ws: seq<Write>) returns (p: Progress)
      modifies this
      ensures Ran(Stored(), faults, p) == Strict(old(Stored()), ws, old(faults))
    {
      for i := 0 to |ws|
        invariant Strict(Stored(), ws[i..], faults) == Strict(old(Stored()), ws, old(faults))
      {
        var f := Perform(ws[i]);
        assert ws[i..][0] == ws[i] && ws[i..][1..] == ws[i + 1..];
        if f == Throws {
          return Threw;
        } else if f == Dies {
          return Crashed;
        }
      }
      return Completed;
    }

    method RecoverInterruptedImport(id: string) returns (p: Progress)
      modifies this
      ensures Ran(Stored(), faults, p) == Recover(codec, old(Stored()), id, old(faults))
    {
      if JournalKey(id) !in prefs {
        return Completed;
      }
      var journal := codec.decode(prefs[JournalKey(id)]);
      if journal == None {
        return Threw;
      }
      p := PerformAll(Restores(id, journal.value) + [RemovePref(JournalKey(id))]);
    }

    /** The catch block of importProfile, up to rethrowing the failure. */
    method UndoImport(id: string, j: Journal) returns (p: Progress)
      modifies this
      ensures Ran(Stored(), faults, p) == Undo(old(Stored()), id, j, old(faults))
    {
      var ws := Restores(id, j);
      for i := 0 to |ws|
        invariant Swallowing(Stored(), ws[i..], faults) == Swallowing(old(Stored()), ws, old(faults))
      {
        var f := Perform(ws[i]);
        assert ws[i..][0] == ws[i] && ws[i..][1..] == ws[i + 1..];
        if f == Dies {
          return Crashed;
        }
      }
      assert ws[|ws|..] == [];
      StrictOne(Stored(), RemovePref(JournalKey(id)), faults);
      var f := Perform(RemovePref(JournalKey(id)));
      return if f == Dies then Crashed else Threw;
    }

    method ImportProfile(r: Request) returns (p: Progress)
      modifies this
      ensures Ran(Stored(), faults, p) == Import(codec, old(Stored()), r, old(faults))
    {
      p := RecoverInterruptedImport(r.id);
      if p != Completed {
        return;
      }
      var previousDocument := Get(prefs, r.id);
      var previousSecrets: seq<(string, Option<string>)> := [];
      ghost var snapshot := Snapshot(Stored(), r);
      for i := 0 to |r.credentials|
        invariant |previousSecrets| == i
        invariant previousSecrets == snapshot.secrets[..i]
      {
        var name := r.credentials[i].0;
        previousSecrets := previousSecrets + [(name, Get(secrets, SecretKey(r.id, name)))];
      }
      assert previousSecrets == snapshot.secrets;
      var j := Journal(previousDocument, previousSecrets);
      p := PerformAll([PutPref(JournalKey(r.id), codec.encode(j))]);
      if p != Completed {
        return;
      }
      p := PerformAll(ImportWrites(r));
      if p == Threw {
        p := UndoImport(r.id, j);
      }
    }
  }

  // ---- The atomic map an import refines ----

  /** A profile as a whole: its document and the value of every secret name. */
  datatype Profile = Profile(document: Option<string>, secrets: imap<string, Option<string>>)

  type Catalog = imap<string, Profile>

  function FindLast<V>(s: seq<(string, V)>, name: string): Option<V> {
    if s == [] then None
    else
      var later := FindLast(s[1..], name);
      if later.Some? then later else if s[0].0 == name then Some(s[0].1) else None
  }

  /** What the stores hold for a profile right now. */
  ghost function StoredProfile(st: Storage, id: string): Profile {
    Profile(Get(st.prefs, id), imap name: string :: Get(st.secrets, SecretKey(id, name)))
  }

  /** What undoing journal `j` makes of profile `p`. */
  ghost function Undone(p: Profile, j: Journal): Profile
    requires forall name :: name in p.secrets
  {
    Profile(j.document, imap name: string ::
      if FindLast(j.secrets, name).Some? then FindLast(j.secrets, name).value else p.secrets[name])
  }

  ghost function Pending(c: Codec, st: Storage, id: string): Option<Journal> {
    if JournalKey(id) in st.prefs then c.decode(st.prefs[JournalKey(id)]) else None
  }

  /** A profile as it counts: with an interrupted import undone. */
  ghost function Settled(c: Codec, st: Storage, id: string): Profile {
    match Pending(c, st, id)
    case None => StoredProfile(st, id)
    case Some(j) => Undone(StoredProfile(st, id), j)
  }

  ghost function Abs(c: Codec, st: Storage): Catalog {
    imap id: string | ValidId(id) :: Settled(c, st, id)
  }

  /** The atomic effect of an import on its profile. */
  ghost function Committed(p: Profile, r: Request): Profile
    requires forall name :: name in p.secrets
  {
    Profile(Some(r.document), imap name: string ::
      if FindLast(r.credentials, name).Some? then FindLast(r.credentials, name) else p.secrets[name])
  }

  ghost function AbsImport(a: Catalog, r: Request): Catalog
    requires r.id in a && forall name :: name in a[r.id].secrets
  {
    a[r.id := Committed(a[r.id], r)]
  }

  // ---- Writes of one profile touch no other ----

  predicate IsSecretKeyOf(id: string, k: string) {
    |k| >= 9 + |id| && k[..9 + |id|] == "profile:" + id + ":"
  }

  predicate InScope(w: Write, id: string) {
    match w
    case PutPref(k, _) => k == id || k == JournalKey(id)
    case RemovePref(k) => k == id || k == JournalKey(id)
    case PutSecret(k, _) => IsSecretKeyOf(id, k)
    case DeleteSecret(k) => IsSecretKeyOf(id, k)
  }

  /** Storages that agree on everything that does not belong to profile `id`. */
  ghost predicate SameElsewhere(a: Storage, b: Storage, id: string) {
    && (forall k :: k != id && k != JournalKey(id) ==> Get(a.prefs, k) == Get(b.prefs, k))
    && (forall k :: !IsSecretKeyOf(id, k) ==> Get(a.secrets, k) == Get(b.secrets, k))
  }

  lemma SecretKeyScope(id: string, name: string)
    ensures IsSecretKeyOf(id, SecretKey(id, name))
  {
    assert SecretKey(id, name)[..9 + |id|] == "profile:" + id + ":";
  }

  lemma {:induction false} StrictStaysInScope(st: Storage, ws: seq<Write>, fs: seq<Fault>, id: string)
    requires forall w :: w in ws ==> InScope(w, id)
    ensures SameElsewhere(st, Strict(st, ws, fs).storage, id)
    decreases |ws|
  {
    if ws != [] && Next(fs) == Done {
      assert ws[0] in ws && forall w :: w in ws[1..] ==> w in ws;
      StrictStaysInScope(Apply(st, ws[0]), ws[1..], Rest(fs), id);
    }
  }

  lemma {:induction false} SwallowingStaysInScope(st: Storage, ws: seq<Write>, fs: seq<Fault>, id: string)
    requires forall w :: w in ws ==> InScope(w, id)
    ensures SameElsewhere(st, Swallowing(st, ws, fs).storage, id)
    decreases |ws|
  {
    if ws != [] && Next(fs) != Dies {
      assert ws[0] in ws && forall w :: w in ws[1..] ==> w in ws;
      var t := if Next(fs) == Done then Apply(st, ws[0]) else st;
      SwallowingStaysInScope(t, ws[1..], Rest(fs), id);
    }
  }

  lemma RestoresInScope(id: string, j: Journal)
    ensures forall w :: w in Restores(id, j) ==> InScope(w, id)
  {
    forall w | w in SecretRestores(id, j.secrets) ensures InScope(w, id) {
      var i :| 0 <= i < |j.secrets| && w == RestoreSecret(id, j.secrets[i].0, j.secrets[i].1);
      SecretKeyScope(id, j.secrets[i].0);
    }
  }

  lemma ImportWritesInScope(r: Request)
    ensures forall w :: w in ImportWrites(r) ==> InScope(w, r.id)
  {
    forall w | w in SecretWrites(r.id, r.credentials) ensures InScope(w, r.id) {
      var i :| 0 <= i < |r.credentials| && w == PutSecret(SecretKey(r.id, r.credentials[i].0), r.credentials[i].1);
      SecretKeyScope(r.id, r.credentials[i].0);
    }
  }

  /** Recovering one profile, however it ends, changes nothing that belongs to another. */
  lemma RecoverStaysInScope(c: Codec, st: Storage, id: string, fs: seq<Fault>)
    ensures SameElsewhere(st, Recover(c, st, id, fs).storage, id)
  {
    if Pending(c, st, id).Some? {
      var j := Pending(c, st, id).value;
      RestoresInScope(id, j);
      StrictStaysInScope(st, Restores(id, j) + [RemovePref(JournalKey(id))], fs, id);
    }
  }

  lemma UndoStaysInScope(st: Storage, id: string, j: Journal, fs: seq<Fault>)
    ensures SameElsewhere(st, Undo(st, id, j, fs).storage, id)
  {
    RestoresInScope(id, j);
    SwallowingStaysInScope(st, Restores(id, j), fs, id);
    var u := Swallowing(st, Restores(id, j), fs);
    StrictStaysInScope(u.storage, [RemovePref(JournalKey(id))], u.faults, id);
  }

  /** Importing one profile, however it ends, changes nothing that belongs to another. */
  lemma ImportStaysInScope(c: Codec, st: Storage, r: Request, fs: seq<Fault>)
    ensures SameElsewhere(st, Import(c, st, r, fs).storage, r.id)
  {
    RecoverStaysInScope(c, st, r.id, fs);
    var recovered := Recover(c, st, r.id, fs);
    var j := Snapshot(recovered.storage, r);
    var open := [PutPref(JournalKey(r.id), c.encode(j))];
    StrictStaysInScope(recovered.storage, open, recovered.faults, r.id);
    var logged := Strict(recovered.storage, open, recovered.faults);
    ImportWritesInScope(r);
    StrictStaysInScope(logged.storage, ImportWrites(r), logged.faults, r.id);
    var tried := Strict(logged.storage, ImportWrites(r), logged.faults);
    UndoStaysInScope(tried.storage, r.id, j, tried.faults);
  }

  /** Storages that differ only within one profile count the same for every other valid profile. */
  lemma OthersUndisturbed(c: Codec, a: Storage, b: Storage, id: string, other: string)
    requires ValidId(id) && ValidId(other) && id != other && SameElsewhere(a, b, id)
    ensures Get(a.prefs, other) == Get(b.prefs, other)
    ensures Get(a.prefs, JournalKey(other)) == Get(b.prefs, JournalKey(other))
    ensures forall name :: Get(a.secrets, SecretKey(other, name)) == Get(b.secrets, SecretKey(other, name))
    ensures Settled(c, a, other) == Settled(c, b, other)
  {
    JournalKeysApart(other, id);
    JournalKeysApart(id, other);
    forall name ensures !IsSecretKeyOf(id, SecretKey(other, name)) {
      var k := SecretKey(other, name);
      if IsSecretKeyOf(id, k) {
        assert k == k[..9 + |id|] + k[9 + |id|..];
        SecretKeyInjective(id, k[9 + |id|..], other, name);
      }
    }
    assert Get(a.prefs, JournalKey(other)) == Get(b.prefs, JournalKey(other));
    assert StoredProfile(a, other) == StoredProfile(b, other);
  }

  // ---- Writes covered by a journal do not count until the journal is cleared ----

  ghost predicate CoveredKey(k: string, id: string, j: Journal) {
    exists name :: FindLast(j.secrets, name).Some? && k == SecretKey(id, name)
  }

  /** The write sets the document of `id`, or a secret that the journal saved. */
  ghost predicate Covered(w: Write, id: string, j: Journal) {
    match w
    case PutPref(k, _) => k == id
    case RemovePref(k) => k == id
    case PutSecret(k, _) => CoveredKey(k, id, j)
    case DeleteSecret(k) => CoveredKey(k, id, j)
  }

  lemma CoveredWrite(c: Codec, st: Storage, w: Write, id: string, j: Journal)
    requires ValidId(id) && Pending(c, st, id) == Some(j) && Covered(w, id, j)
    ensures Pending(c, Apply(st, w), id) == Some(j)
    ensures Settled(c, Apply(st, w), id) == Settled(c, st, id)
  {
    JournalKeysApart(id, id);
    var t := Apply(st, w);
    forall name | FindLast(j.secrets, name).None?
      ensures Get(t.secrets, SecretKey(id, name)) == Get(st.secrets, SecretKey(id, name))
    {
      if (w.PutSecret? || w.DeleteSecret?) && w.key == SecretKey(id, name) {
        var saved :| FindLast(j.secrets, saved).Some? && w.key == SecretKey(id, saved);
        SecretKeyInjective(id, saved, id, name);
      }
    }
  }

  lemma {:induction false} CoveredStrict(c: Codec, st: Storage, ws: seq<Write>, fs: seq<Fault>, id: string, j: Journal)
    requires ValidId(id) && Pending(c, st, id) == Some(j)
    requires forall w :: w in ws ==> Covered(w, id, j)
    ensures Pending(c, Strict(st, ws, fs).storage, id) == Some(j)
    ensures Settled(c, Strict(st, ws, fs).storage, id) == Settled(c, st, id)
    decreases |ws|
  {
    if ws != [] && Next(fs) == Done {
      assert ws[0] in ws && forall w :: w in ws[1..] ==> w in ws;
      CoveredWrite(c, st, ws[0], id, j);
      CoveredStrict(c, Apply(st, ws[0]), ws[1..], Rest(fs), id, j);
    }
  }

  lemma {:induction false} CoveredSwallowing(c: Codec, st: Storage, ws: seq<Write>, fs: seq<Fault>, id: string,
                                             j: Journal)
    requires ValidId(id) && Pending(c, st, id) == Some(j)
    requires forall w :: w in ws ==> Covered(w, id, j)
    ensures Pending(c, Swallowing(st, ws, fs).storage, id) == Some(j)
    ensures Settled(c, Swallowing(st, ws, fs).storage, id) == Settled(c, st, id)
    decreases |ws|
  {
    if ws != [] && Next(fs) != Dies {
      assert ws[0] in ws && forall w :: w in ws[1..] ==> w in ws;
      CoveredWrite(c, st, ws[0], id, j);
      CoveredSwallowing(c, if Next(fs) == Done then Apply(st, ws[0]) else st, ws[1..], Rest(fs), id, j);
    }
  }

  lemma {:induction false} FindLastIndex<V>(s: seq<(string, V)>, i: nat)
    requires i < |s|
    ensures FindLast(s, s[i].0).Some?
  {
    if i > 0 {
      FindLastIndex(s[1..], i - 1);
    }
  }

  lemma RestoresCovered(id: string, j: Journal)
    ensures forall w :: w in Restores(id, j) ==> Covered(w, id, j)
  {
    forall w | w in SecretRestores(id, j.secrets) ensures Covered(w, id, j) {
      var i :| 0 <= i < |j.secrets| && w == RestoreSecret(id, j.secrets[i].0, j.secrets[i].1);
      FindLastIndex(j.secrets, i);
    }
  }

  /** The journal of an import saves every secret the import writes. */
  lemma TriesCovered(st: Storage, r: Request)
    ensures forall w :: w in SecretWrites(r.id, r.credentials) + [PutPref(r.id, r.document)] ==>
      Covered(w, r.id, Snapshot(st, r))
  {
    var j := Snapshot(st, r);
    forall w | w in SecretWrites(r.id, r.credentials) ensures Covered(w, r.id, j) {
      var i :| 0 <= i < |r.credentials| && w == PutSecret(SecretKey(r.id, r.credentials[i].0), r.credentials[i].1);
      FindLastIndex(j.secrets, i);
      assert j.secrets[i].0 == r.credentials[i].0;
    }
  }

  // ---- What completed writes leave in the stores ----

  lemma {:induction false} StrictCompletes(st: Storage, ws: seq<Write>, fs: seq<Fault>)
    requires Strict(st, ws, fs).progress == Completed
    ensures Strict(st, ws, fs).storage == ApplyAll(st, ws)
    decreases |ws|
  {
    if ws != [] {
      StrictCompletes(Apply(st, ws[0]), ws[1..], Rest(fs));
    }
  }

  lemma {:induction false} StrictAppend(st: Storage, a: seq<Write>, b: seq<Write>, fs: seq<Fault>)
    ensures var first := Strict(st, a, fs);
      Strict(st, a + b, fs) ==
        if first.progress == Completed then Strict(first.storage, b, first.faults) else first
    decreases |a|
  {
    if a == [] {
      assert a + b == b;
    } else {
      assert (a + b)[0] == a[0] && (a + b)[1..] == a[1..] + b;
      if Next(fs) == Done {
        StrictAppend(Apply(st, a[0]), a[1..], b, Rest(fs));
      }
    }
  }

  lemma {:induction false} SecretRestoresApplied(st: Storage, id: string, s: seq<(string, Option<string>)>)
    requires ValidId(id)
    ensures var t := ApplyAll(st, SecretRestores(id, s));
      && t.prefs == st.prefs
      && forall name :: Get(t.secrets, SecretKey(id, name)) ==
           if FindLast(s, name).Some? then FindLast(s, name).value else Get(st.secrets, SecretKey(id, name))
    decreases |s|
  {
    if s != [] {
      var u := Apply(st, RestoreSecret(id, s[0].0, s[0].1));
      assert SecretRestores(id, s)[1..] == SecretRestores(id, s[1..]);
      SecretRestoresApplied(u, id, s[1..]);
      forall name {
        SecretKeyInjective(id, name, id, s[0].0);
      }
    }
  }

  lemma {:induction false} SecretWritesApplied(st: Storage, id: string, s: seq<(string, string)>)
    requires ValidId(id)
    ensures var t := ApplyAll(st, SecretWrites(id, s));
      && t.prefs == st.prefs
      && forall name :: Get(t.secrets, SecretKey(id, name)) ==
           if FindLast(s, name).Some? then FindLast(s, name) else Get(st.secrets, SecretKey(id, name))
    decreases |s|
  {
    if s != [] {
      var u := Apply(st, PutSecret(SecretKey(id, s[0].0), s[0].1));
      assert SecretWrites(id, s)[1..] == SecretWrites(id, s[1..]);
      SecretWritesApplied(u, id, s[1..]);
      forall name {
        SecretKeyInjective(id, name, id, s[0].0);
      }
    }
  }

  /** All restores of a journal done, the stores hold exactly what the journal undoes to. */
  lemma RestoresApplied(st: Storage, id: string, j: Journal)
    requires ValidId(id)
    ensures StoredProfile(ApplyAll(st, Restores(id, j)), id) == Undone(StoredProfile(st, id), j)
    ensures Get(ApplyAll(st, Restores(id, j)).prefs, JournalKey(id)) == Get(st.prefs, JournalKey(id))
  {
    JournalKeysApart(id, id);
    var u := Apply(st, RestoreDocument(id, j.document));
    assert Restores(id, j)[1..] == SecretRestores(id, j.secrets);
    SecretRestoresApplied(u, id, j.secrets);
  }

  lemma ClearedJournal(c: Codec, st: Storage, id: string)
    requires ValidId(id)
    ensures var t := Apply(st, RemovePref(JournalKey(id)));
      Settled(c, t, id) == StoredProfile(t, id) == StoredProfile(st, id)
  {
    JournalKeysApart(id, id);
  }

  // ---- Recovery ----

  /**
   * Recovery never changes what counts, wherever it throws or dies; when it completes, no journal
   * is left and the stores hold exactly the profile that counts.
   */
  lemma RecoverKeepsProfile(c: Codec, st: Storage, id: string, fs: seq<Fault>)
    requires ValidId(id)
    ensures var ran := Recover(c, st, id, fs);
      && Settled(c, ran.storage, id) == Settled(c, st, id)
      && (ran.progress == Completed ==>
            JournalKey(id) !in ran.storage.prefs && StoredProfile(ran.storage, id) == Settled(c, st, id))
  {
    if Pending(c, st, id).Some? {
      var j := Pending(c, st, id).value;
      var ws, clear := Restores(id, j), RemovePref(JournalKey(id));
      var undone := Strict(st, ws, fs);
      StrictAppend(st, ws, [clear], fs);
      RestoresCovered(id, j);
      CoveredStrict(c, st, ws, fs, id, j);
      if undone.progress == Completed {
        StrictOne(undone.storage, clear, undone.faults);
        StrictCompletes(st, ws, fs);
        RestoresApplied(st, id, j);
        ClearedJournal(c, undone.storage, id);
      }
    }
  }

  predicate SameKey(w: Write, v: Write) {
    ((w.PutPref? || w.RemovePref?) <==> (v.PutPref? || v.RemovePref?)) && w.key == v.key
  }

  lemma TwoWrites(st: Storage, w: Write, v: Write)
    ensures Apply(Apply(st, w), v) == if SameKey(w, v) then Apply(st, v) else Apply(Apply(st, v), w)
  {
    if (w.PutPref? || w.RemovePref?) && (v.PutPref? || v.RemovePref?) {
      TwoSets(st.prefs, w.key, Value(w), v.key, Value(v));
    } else if !w.PutPref? && !w.RemovePref? && !v.PutPref? && !v.RemovePref? {
      TwoSets(st.secrets, w.key, Value(w), v.key, Value(v));
    }
  }

  function Value(w: Write): Option<string> {
    if w.PutPref? || w.PutSecret? then Some(w.value) else None
  }

  function Set(m: map<string, string>, k: string, v: Option<string>): map<string, string> {
    if v.Some? then m[k := v.value] else m - {k}
  }

  lemma TwoSets(m: map<string, string>, k: string, v: Option<string>, k': string, v': Option<string>)
    ensures Set(Set(m, k, v), k', v') == if k == k' then Set(m, k', v') else Set(Set(m, k', v'), k, v)
  {
  }

  /** A write is forgotten once a later one has set the same key. */
  lemma {:induction false} Overwritten(st: Storage, w: Write, ws: seq<Write>)
    requires exists v :: v in ws && SameKey(w, v)
    ensures ApplyAll(Apply(st, w), ws) == ApplyAll(st, ws)
    decreases |ws|
  {
    TwoWrites(st, w, ws[0]);
    if !SameKey(w, ws[0]) {
      var v :| v in ws && SameKey(w, v);
      assert v in ws[1..];
      Overwritten(Apply(st, ws[0]), w, ws[1..]);
    }
  }

  lemma {:induction false} Redone(st: Storage, p: seq<Write>, ws: seq<Write>)
    requires forall w :: w in p ==> w in ws
    ensures ApplyAll(ApplyAll(st, p), ws) == ApplyAll(st, ws)
    decreases |p|
  {
    if p != [] {
      assert p[0] in p && SameKey(p[0], p[0]);
      Redone(Apply(st, p[0]), p[1..], ws);
      Overwritten(st, p[0], ws);
    }
  }

  lemma {:induction false} StrictPrefix(st: Storage, ws: seq<Write>, fs: seq<Fault>) returns (n: nat)
    ensures n <= |ws| && Strict(st, ws, fs).storage == ApplyAll(st, ws[..n])
    ensures n == |ws| <==> Strict(st, ws, fs).progress == Completed
    decreases |ws|
  {
    if ws == [] {
      return 0;
    }
    if Next(fs) == Done {
      var k := StrictPrefix(Apply(st, ws[0]), ws[1..], Rest(fs));
      n := k + 1;
      assert ws[..n][0] == ws[0] && ws[..n][1..] == ws[1..][..k];
    } else {
      n := 0;
    }
  }

  /** A recovery cut short anywhere and run again ends in the very storage of one undisturbed run. */
  lemma RecoveryResumes(c: Codec, st: Storage, id: string, cut: seq<Fault>, again: seq<Fault>)
    requires ValidId(id)
    requires Recover(c, Recover(c, st, id, cut).storage, id, again).progress == Completed
    ensures Recover(c, Recover(c, st, id, cut).storage, id, again).storage == Recover(c, st, id, []).storage
  {
    RecoverKeepsProfile(c, st, id, cut);
    if Pending(c, st, id).Some? {
      var j := Pending(c, st, id).value;
      var ws := Restores(id, j) + [RemovePref(JournalKey(id))];
      var n := StrictPrefix(st, ws, cut);
      NoFaults(st, ws);
      if n < |ws| {
        assert ws[..n] == Restores(id, j)[..n];
        var part := Recover(c, st, id, cut).storage;
        PartKeepsJournal(c, st, id, j, n);
        StrictCompletes(part, ws, again);
        Redone(st, ws[..n], ws);
      } else {
        assert ws[..n] == ws;
      }
    }
  }

  lemma {:induction false} NoFaults(st: Storage, ws: seq<Write>)
    ensures Strict(st, ws, []) == Ran(ApplyAll(st, ws), [], Completed)
    decreases |ws|
  {
    if ws != [] {
      NoFaults(Apply(st, ws[0]), ws[1..]);
    }
  }

  lemma PartKeepsJournal(c: Codec, st: Storage, id: string, j: Journal, n: nat)
    requires ValidId(id) && Pending(c, st, id) == Some(j) && n <= |Restores(id, j)|
    ensures Pending(c, ApplyAll(st, Restores(id, j)[..n]), id) == Some(j)
  {
    RestoresCovered(id, j);
    NoFaults(st, Restores(id, j)[..n]);
    CoveredStrict(c, st, Restores(id, j)[..n], [], id, j);
  }

  // ---- Atomicity of one import ----

  /** The state in which the catch block starts, for an import that reaches it. */
  function Tried(c: Codec, st: Storage, r: Request, fs: seq<Fault>): Ran {
    var recovered := Recover(c, st, r.id, fs);
    var j := Snapshot(recovered.storage, r);
    var logged := Strict(recovered.storage, [PutPref(JournalKey(r.id), c.encode(j))], recovered.faults);
    Strict(logged.storage, ImportWrites(r), logged.faults)
  }

  /** The import got as far as its catch block. */
  predicate Catches(c: Codec, st: Storage, r: Request, fs: seq<Fault>) {
    var recovered := Recover(c, st, r.id, fs);
    && recovered.progress == Completed
    && Next(recovered.faults) == Done
    && Tried(c, st, r, fs).progress == Threw
  }

  function Saved(c: Codec, st: Storage, r: Request, fs: seq<Fault>): Journal {
    Snapshot(Recover(c, st, r.id, fs).storage, r)
  }

  /** No restore in the catch block throws: each one is done, unless the process dies first. */
  predicate RestoresHold(c: Codec, st: Storage, r: Request, fs: seq<Fault>) {
    Catches(c, st, r, fs) ==>
      var t := Tried(c, st, r, fs);
      Strict(t.storage, Restores(r.id, Saved(c, st, r, fs)), t.faults).progress != Threw
  }

  lemma {:induction false} SwallowingNothing(st: Storage, ws: seq<Write>, fs: seq<Fault>)
    requires Strict(st, ws, fs).progress != Threw
    ensures Swallowing(st, ws, fs) == Strict(st, ws, fs)
    decreases |ws|
  {
    if ws != [] && Next(fs) == Done {
      SwallowingNothing(Apply(st, ws[0]), ws[1..], Rest(fs));
    }
  }

  /** Writing the journal changes nothing that counts: it undoes to what is already stored. */
  lemma JournalOpened(c: Codec, st: Storage, r: Request)
    requires Lawful(c) && ValidId(r.id) && JournalKey(r.id) !in st.prefs
    ensures var j := Snapshot(st, r);
      var t := Apply(st, PutPref(JournalKey(r.id), c.encode(j)));
      && Pending(c, t, r.id) == Some(j)
      && StoredProfile(t, r.id) == StoredProfile(st, r.id) == Undone(StoredProfile(st, r.id), j)
      && Settled(c, t, r.id) == Settled(c, st, r.id)
  {
    JournalKeysApart(r.id, r.id);
    var j := Snapshot(st, r);
    SnapshotValues(st, r.id, r.credentials);
    assert Undone(StoredProfile(st, r.id), j) == StoredProfile(st, r.id);
  }

  lemma {:induction false} SnapshotValues(st: Storage, id: string, s: seq<(string, string)>)
    ensures forall name :: var saved := FindLast(PreviousSecrets(st, id, s), name);
      saved.Some? ==> saved.value == Get(st.secrets, SecretKey(id, name))
  {
    if s != [] {
      SnapshotValues(st, id, s[1..]);
      assert PreviousSecrets(st, id, s)[1..] == PreviousSecrets(st, id, s[1..]);
    }
  }

  /** The writes of the try block: covered by the journal until the last one clears it and commits. */
  lemma TryBlock(c: Codec, st: Storage, r: Request, j: Journal, fs: seq<Fault>)
    requires ValidId(r.id) && Pending(c, st, r.id) == Some(j)
    requires forall w :: w in SecretWrites(r.id, r.credentials) + [PutPref(r.id, r.document)] ==> Covered(w, r.id, j)
    ensures var tried := Strict(st, ImportWrites(r), fs);
      && (tried.progress == Completed ==>
            Settled(c, tried.storage, r.id) == Committed(StoredProfile(st, r.id), r))
      && (tried.progress != Completed ==>
            Pending(c, tried.storage, r.id) == Some(j) && Settled(c, tried.storage, r.id) == Settled(c, st, r.id))
  {
    var ws, clear := SecretWrites(r.id, r.credentials) + [PutPref(r.id, r.document)], RemovePref(JournalKey(r.id));
    assert ImportWrites(r) == ws + [clear];
    var written := Strict(st, ws, fs);
    StrictAppend(st, ws, [clear], fs);
    CoveredStrict(c, st, ws, fs, r.id, j);
    if written.progress == Completed {
      StrictOne(written.storage, clear, written.faults);
      StrictCompletes(st, ws, fs);
      AllWritten(st, r);
      ClearedJournal(c, written.storage, r.id);
    }
  }

  lemma AllWritten(st: Storage, r: Request)
    requires ValidId(r.id)
    ensures StoredProfile(ApplyAll(st, SecretWrites(r.id, r.credentials) + [PutPref(r.id, r.document)]), r.id)
      == Committed(StoredProfile(st, r.id), r)
  {
    var put := PutPref(r.id, r.document);
    SecretWritesApplied(st, r.id, r.credentials);
    ApplyAllAppend(st, SecretWrites(r.id, r.credentials), [put]);
    assert [put][1..] == [];
  }

  lemma {:induction false} ApplyAllAppend(st: Storage, a: seq<Write>, b: seq<Write>)
    ensures ApplyAll(st, a + b) == ApplyAll(ApplyAll(st, a), b)
    decreases |a|
  {
    if a == [] {
      assert a + b == b;
    } else {
      assert (a + b)[0] == a[0] && (a + b)[1..] == a[1..] + b;
      ApplyAllAppend(Apply(st, a[0]), a[1..], b);
    }
  }

  /** The catch block: what counts changes only if the journal is cleared, and then to what is stored. */
  lemma CatchBlock(c: Codec, st: Storage, id: string, j: Journal, fs: seq<Fault>)
    requires ValidId(id) && Pending(c, st, id) == Some(j)
    ensures var ran, restored := Undo(st, id, j, fs), Swallowing(st, Restores(id, j), fs);
      && (JournalKey(id) in ran.storage.prefs ==> Settled(c, ran.storage, id) == Settled(c, st, id))
      && (JournalKey(id) !in ran.storage.prefs ==>
            restored.progress == Completed && Settled(c, ran.storage, id) == StoredProfile(restored.storage, id))
      && (Strict(st, Restores(id, j), fs).progress != Threw ==> Settled(c, ran.storage, id) == Settled(c, st, id))
  {
    var ws, clear := Restores(id, j), RemovePref(JournalKey(id));
    var restored := Swallowing(st, ws, fs);
    RestoresCovered(id, j);
    CoveredSwallowing(c, st, ws, fs, id, j);
    if restored.progress != Crashed {
      SwallowingEnds(st, ws, fs);
      StrictOne(restored.storage, clear, restored.faults);
      ClearedJournal(c, restored.storage, id);
      if Strict(st, ws, fs).progress != Threw {
        SwallowingNothing(st, ws, fs);
        StrictCompletes(st, ws, fs);
        RestoresApplied(st, id, j);
      }
    } else if Strict(st, ws, fs).progress != Threw {
      SwallowingNothing(st, ws, fs);
    }
  }

  lemma {:induction false} SwallowingEnds(st: Storage, ws: seq<Write>, fs: seq<Fault>)
    ensures Swallowing(st, ws, fs).progress != Threw
    decreases |ws|
  {
    if ws != [] && Next(fs) != Dies {
      SwallowingEnds(if Next(fs) == Done then Apply(st, ws[0]) else st, ws[1..], Rest(fs));
    }
  }

  /**
   * Crash atomicity of one import: whatever throws and wherever the process dies, the profile that
   * counts is the committed one when importProfile returns, and the earlier one otherwise.
   */
  lemma ImportIsAtomic(c: Codec, st: Storage, r: Request, fs: seq<Fault>)
    requires Lawful(c) && ValidId(r.id) && RestoresHold(c, st, r, fs)
    ensures var ran, before := Import(c, st, r, fs), Settled(c, st, r.id);
      Settled(c, ran.storage, r.id) == if ran.progress == Completed then Committed(before, r) else before
  {
    var recovered := Recover(c, st, r.id, fs);
    RecoverKeepsProfile(c, st, r.id, fs);
    if recovered.progress == Completed {
      var j := Snapshot(recovered.storage, r);
      var write := PutPref(JournalKey(r.id), c.encode(j));
      StrictOne(recovered.storage, write, recovered.faults);
      JournalOpened(c, recovered.storage, r);
      var logged := Strict(recovered.storage, [write], recovered.faults);
      if logged.progress == Completed {
        TriesCovered(recovered.storage, r);
        TryBlock(c, logged.storage, r, j, logged.faults);
        var tried := Strict(logged.storage, ImportWrites(r), logged.faults);
        if tried.progress == Threw {
          CatchBlock(c, tried.storage, r.id, j, tried.faults);
        }
      }
    }
  }

  /** The same on the whole catalog: one import is one atomic step of the map, or no step at all. */
  lemma ImportRefinesMap(c: Codec, st: Storage, r: Request, fs: seq<Fault>)
    requires Lawful(c) && ValidId(r.id) && RestoresHold(c, st, r, fs)
    ensures var ran := Import(c, st, r, fs);
      Abs(c, ran.storage) == if ran.progress == Completed then AbsImport(Abs(c, st), r) else Abs(c, st)
  {
    ImportIsAtomic(c, st, r, fs);
    ImportStaysInScope(c, st, r, fs);
    OneProfileSet(c, st, Import(c, st, r, fs), r);
  }

  lemma OneProfileSet(c: Codec, st: Storage, ran: Ran, r: Request)
    requires ValidId(r.id) && SameElsewhere(st, ran.storage, r.id)
    requires var before := Settled(c, st, r.id);
      Settled(c, ran.storage, r.id) == if ran.progress == Completed then Committed(before, r) else before
    ensures Abs(c, ran.storage) == if ran.progress == Completed then AbsImport(Abs(c, st), r) else Abs(c, st)
  {
    OneProfileChanged(c, st, ran.storage, r.id);
  }

  lemma OneProfileChanged(c: Codec, a: Storage, b: Storage, id: string)
    requires ValidId(id) && SameElsewhere(a, b, id)
    ensures Abs(c, b) == Abs(c, a)[id := Settled(c, b, id)]
  {
    forall other | ValidId(other) && other != id ensures Settled(c, b, other) == Settled(c, a, other) {
      OthersUndisturbed(c, a, b, id, other);
    }
  }

  // ---- Every run of imports ----

  /** One call of importProfile: what is imported and what goes wrong on the way. */
  datatype Call = Call(request: Request, faults: seq<Fault>)

  function RunImports(c: Codec, st: Storage, calls: seq<Call>): Storage
    decreases |calls|
  {
    if calls == [] then st
    else RunImports(c, Import(c, st, calls[0].request, calls[0].faults).storage, calls[1..])
  }

  /** The imports of a run that returned normally, in order. */
  function Returned(c: Codec, st: Storage, calls: seq<Call>): (rs: seq<Request>)
    ensures forall r :: r in rs ==> exists call :: call in calls && call.request == r
    decreases |calls|
  {
    if calls == [] then []
    else
      var ran := Import(c, st, calls[0].request, calls[0].faults);
      (if ran.progress == Completed then [calls[0].request] else []) + Returned(c, ran.storage, calls[1..])
  }

  predicate RunHolds(c: Codec, st: Storage, calls: seq<Call>)
    decreases |calls|
  {
    calls == [] ||
      (&& ValidId(calls[0].request.id)
       && RestoresHold(c, st, calls[0].request, calls[0].faults)
       && RunHolds(c, Import(c, st, calls[0].request, calls[0].faults).storage, calls[1..]))
  }

  /** The atomic map after importing `rs` one after the other. */
  ghost function AbsRun(a: Catalog, rs: seq<Request>): Catalog
    requires forall id :: ValidId(id) ==> id in a && forall name :: name in a[id].secrets
    requires forall r :: r in rs ==> ValidId(r.id)
    decreases |rs|
  {
    if rs == [] then a else AbsRun(AbsImport(a, rs[0]), rs[1..])
  }

  /**
   * In every run of imports that return, fail or are cut off by a crash, the catalog that counts is
   * the one made by the imports that returned, in order, and a completed recovery stores it.
   */
  lemma {:induction false} RunsAreAtomic(c: Codec, st: Storage, calls: seq<Call>, id: string, fs: seq<Fault>)
    requires Lawful(c) && RunHolds(c, st, calls) && ValidId(id)
    ensures forall r :: r in Returned(c, st, calls) ==> ValidId(r.id)
    ensures var end := RunImports(c, st, calls);
      && Abs(c, end) == AbsRun(Abs(c, st), Returned(c, st, calls))
      && (Recover(c, end, id, fs).progress == Completed ==>
            StoredProfile(Recover(c, end, id, fs).storage, id) == AbsRun(Abs(c, st), Returned(c, st, calls))[id])
    decreases |calls|
  {
    if calls == [] {
      RecoverKeepsProfile(c, st, id, fs);
    } else {
      var r := calls[0].request;
      var ran := Import(c, st, r, calls[0].faults);
      ImportRefinesMap(c, st, r, calls[0].faults);
      RunsAreAtomic(c, ran.storage, calls[1..], id, fs);
      var later := Returned(c, ran.storage, calls[1..]);
      if ran.progress == Completed {
        assert Returned(c, st, calls) == [r] + later;
        assert ([r] + later)[1..] == later;
      } else {
        assert Returned(c, st, calls) == later;
      }
    }
  }

  // ---- Exactly when a failed import leaves the profile alone ----

  predicate ThrowsAt(fs: seq<Fault>, i: nat) {
    i < |fs| && fs[i] == Throws
  }

  lemma SecretRestored(st: Storage, id: string, name: string, value: Option<string>)
    requires ValidId(id)
    ensures var u := Apply(st, RestoreSecret(id, name, value));
      && u.prefs == st.prefs
      && forall other ::
           Get(u.secrets, SecretKey(id, other)) ==
             if other == name then value else Get(st.secrets, SecretKey(id, other))
  {
    forall other {
      SecretKeyInjective(id, other, id, name);
    }
  }

  /** Swallowed restores: the secrets whose restore threw keep what they had, the others are restored. */
  lemma {:induction false} SwallowedSecrets(st: Storage, id: string, s: seq<(string, Option<string>)>, fs: seq<Fault>)
    requires ValidId(id) && DistinctNames(s)
    requires Swallowing(st, SecretRestores(id, s), fs).progress == Completed
    ensures var t := Swallowing(st, SecretRestores(id, s), fs).storage;
      && t.prefs == st.prefs
      && (forall i :: 0 <= i < |s| ==>
            Get(t.secrets, SecretKey(id, s[i].0)) ==
              if ThrowsAt(fs, i) then Get(st.secrets, SecretKey(id, s[i].0)) else s[i].1)
      && (forall name :: FindLast(s, name).None? ==>
            Get(t.secrets, SecretKey(id, name)) == Get(st.secrets, SecretKey(id, name)))
    decreases |s|
  {
    if s != [] {
      var u := if Next(fs) == Done then Apply(st, RestoreSecret(id, s[0].0, s[0].1)) else st;
      assert SecretRestores(id, s)[1..] == SecretRestores(id, s[1..]);
      SwallowedSecrets(u, id, s[1..], Rest(fs));
      AbsentName(s[1..], s[0].0);
      SecretRestored(st, id, s[0].0, s[0].1);
      forall i | 0 < i < |s| ensures s[i] == s[1..][i - 1] && ThrowsAt(fs, i) == ThrowsAt(Rest(fs), i - 1) {}
    }
  }

  lemma {:induction false} AbsentName<V>(s: seq<(string, V)>, name: string)
    requires forall i :: 0 <= i < |s| ==> s[i].0 != name
    ensures FindLast(s, name).None?
  {
    if s != [] {
      AbsentName(s[1..], name);
    }
  }

  /** An entry that the catch block fails to restore still holds what the journal saved. */
  predicate Unchanged(t: Storage, r: Request, j: Journal, fs: seq<Fault>)
    requires |j.secrets| == |r.credentials|
  {
    && (ThrowsAt(fs, 0) ==> Get(t.prefs, r.id) == j.document)
    && forall i :: 0 <= i < |j.secrets| && ThrowsAt(fs, i + 1) ==>
         Get(t.secrets, SecretKey(r.id, r.credentials[i].0)) == j.secrets[i].1
  }

  /**
   * An import that fails, gets through its catch block and clears its journal leaves the profile
   * as it was if and only if no restore that threw was of an entry the import had changed.
   */
  lemma FailedImportExact(c: Codec, st: Storage, r: Request, fs: seq<Fault>)
    requires Lawful(c) && ValidId(r.id)
    requires Catches(c, st, r, fs) && JournalKey(r.id) !in Import(c, st, r, fs).storage.prefs
    ensures Settled(c, Import(c, st, r, fs).storage, r.id) == Settled(c, st, r.id) <==>
      Unchanged(Tried(c, st, r, fs).storage, r, Saved(c, st, r, fs), Tried(c, st, r, fs).faults)
  {
    var before, j := Recover(c, st, r.id, fs).storage, Saved(c, st, r, fs);
    var write := PutPref(JournalKey(r.id), c.encode(j));
    RecoverKeepsProfile(c, st, r.id, fs);
    StrictOne(before, write, Recover(c, st, r.id, fs).faults);
    JournalOpened(c, before, r);
    TriesCovered(before, r);
    TryBlock(c, Apply(before, write), r, j, Rest(Recover(c, st, r.id, fs).faults));
    var t := Tried(c, st, r, fs);
    CatchBlock(c, t.storage, r.id, j, t.faults);
    RestoredExactly(t.storage, r, j, t.faults);
  }

  lemma RestoredExactly(t: Storage, r: Request, j: Journal, fs: seq<Fault>)
    requires ValidId(r.id)
    requires |j.secrets| == |r.credentials| && forall i :: 0 <= i < |j.secrets| ==> j.secrets[i].0 == r.credentials[i].0
    requires Swallowing(t, Restores(r.id, j), fs).progress == Completed
    ensures StoredProfile(Swallowing(t, Restores(r.id, j), fs).storage, r.id) == Undone(StoredProfile(t, r.id), j)
      <==> Unchanged(t, r, j, fs)
  {
    var id := r.id;
    var u := if Next(fs) == Done then Apply(t, RestoreDocument(id, j.document)) else t;
    assert Restores(id, j)[1..] == SecretRestores(id, j.secrets);
    SwallowedSecrets(u, id, j.secrets, Rest(fs));
    var end := Swallowing(t, Restores(id, j), fs).storage;
    var got, want := StoredProfile(end, id), Undone(StoredProfile(t, id), j);
    assert got.document == want.document <==> (ThrowsAt(fs, 0) ==> Get(t.prefs, id) == j.document);
    forall i | 0 <= i < |j.secrets|
      ensures ThrowsAt(Rest(fs), i) == ThrowsAt(fs, i + 1)
      ensures FindLast(j.secrets, j.secrets[i].0) == Some(j.secrets[i].1)
    {
      DistinctFind(j.secrets, i);
    }
    if Unchanged(t, r, j, fs) {
      forall name ensures got.secrets[name] == want.secrets[name] {
        if FindLast(j.secrets, name).Some? {
          var i := FoundAt(j.secrets, name);
        }
      }
      assert got.secrets == want.secrets;
    } else if ThrowsAt(fs, 0) ==> Get(t.prefs, id) == j.document {
      var i :| 0 <= i < |j.secrets| && ThrowsAt(fs, i + 1)
        && Get(t.secrets, SecretKey(id, r.credentials[i].0)) != j.secrets[i].1;
      assert got.secrets[j.secrets[i].0] != want.secrets[j.secrets[i].0];
    }
  }

  lemma {:induction false} FoundAt<V>(s: seq<(string, V)>, name: string) returns (i: nat)
    requires FindLast(s, name).Some?
    ensures i < |s| && s[i].0 == name
  {
    if FindLast(s[1..], name).Some? {
      var k := FoundAt(s[1..], name);
      i := k + 1;
    } else {
      i := 0;
    }
  }

  lemma {:induction false} DistinctFind<V>(s: seq<(string, V)>, i: nat)
    requires DistinctNames(s) && i < |s|
    ensures FindLast(s, s[i].0) == Some(s[i].1)
  {
    if i == 0 {
      AbsentName(s[1..], s[0].0);
    } else {
      DistinctFind(s[1..], i - 1);
    }
  }

  // ---- The same for every import, by the position of its faults ----

  /** What happens to write number i of a schedule. */
  function FaultAt(fs: seq<Fault>, i: nat): Fault {
    if i < |fs| then fs[i] else Done
  }

  function Drop(fs: seq<Fault>, n: nat): seq<Fault> {
    if n <= |fs| then fs[n..] else []
  }

  lemma DropFault(fs: seq<Fault>, n: nat, i: nat)
    ensures FaultAt(Drop(fs, n), i) == FaultAt(fs, n + i)
  {
  }

  lemma DropNext(fs: seq<Fault>, n: nat)
    ensures Drop(fs, 0) == fs && Next(Drop(fs, n)) == FaultAt(fs, n) && Rest(Drop(fs, n)) == Drop(fs, n + 1)
  {
  }

  lemma DropRest(fs: seq<Fault>, n: nat)
    ensures Drop(Rest(fs), n) == Drop(fs, n + 1)
  {
  }

  lemma DropDrop(fs: seq<Fault>, n: nat, m: nat)
    ensures Drop(Drop(fs, n), m) == Drop(fs, n + m)
  {
  }

  /** The number of the first of n writes that is not done; n if all are. */
  function FirstFault(fs: seq<Fault>, n: nat): (m: nat)
    ensures m <= n
  {
    if n == 0 || Next(fs) != Done then 0 else FirstFault(Rest(fs), n - 1) + 1
  }

  lemma {:induction false} FirstFaultMeans(fs: seq<Fault>, n: nat)
    ensures forall i :: 0 <= i < FirstFault(fs, n) ==> FaultAt(fs, i) == Done
    ensures FirstFault(fs, n) < n ==> FaultAt(fs, FirstFault(fs, n)) != Done
    decreases n
  {
    if n > 0 && Next(fs) == Done {
      FirstFaultMeans(Rest(fs), n - 1);
      assert forall i :: 0 < i ==> FaultAt(fs, i) == FaultAt(Rest(fs), i - 1);
    }
  }

  /** The first fault among two runs of writes, one after the other. */
  lemma {:induction false} FirstFaultOfTwo(fs: seq<Fault>, a: nat, b: nat)
    ensures FirstFault(fs, a + b) ==
      if FirstFault(fs, a) < a then FirstFault(fs, a) else a + FirstFault(Drop(fs, a), b)
    decreases a
  {
    DropNext(fs, 0);
    if a > 0 && Next(fs) == Done {
      FirstFaultOfTwo(Rest(fs), a - 1, b);
      DropRest(fs, a - 1);
    }
  }

  /** A run of writes that met its first fault at write m, or none when m is their number. */
  predicate EndsAt(ran: Ran, st: Storage, ws: seq<Write>, fs: seq<Fault>, m: nat)
    requires m <= |ws|
  {
    && ran.storage == ApplyAll(st, ws[..m])
    && ran.faults == Drop(fs, if m == |ws| then m else m + 1)
    && ran.progress == if m == |ws| then Completed else if FaultAt(fs, m) == Throws then Threw else Crashed
  }

  lemma EndsOneLater(ran: Ran, st: Storage, ws: seq<Write>, fs: seq<Fault>, m: nat)
    requires ws != [] && Next(fs) == Done && m < |ws|
    requires EndsAt(ran, Apply(st, ws[0]), ws[1..], Rest(fs), m)
    ensures EndsAt(ran, st, ws, fs, m + 1)
  {
    DropRest(fs, m);
    DropRest(fs, m + 1);
    assert FaultAt(Rest(fs), m) == FaultAt(fs, m + 1);
    assert ws[..m + 1][0] == ws[0] && ws[..m + 1][1..] == ws[1..][..m];
  }

  lemma {:induction false} StrictByPosition(st: Storage, ws: seq<Write>, fs: seq<Fault>)
    ensures EndsAt(Strict(st, ws, fs), st, ws, fs, FirstFault(fs, |ws|))
    decreases |ws|
  {
    DropNext(fs, 0);
    if ws != [] {
      if Next(fs) == Done {
        StrictByPosition(Apply(st, ws[0]), ws[1..], Rest(fs));
        EndsOneLater(Strict(st, ws, fs), st, ws, fs, FirstFault(Rest(fs), |ws| - 1));
      } else {
        assert ws[..0] == [];
      }
    }
  }

  /** The same for a run that starts n writes into the schedule. */
  lemma EndsLater(ran: Ran, st: Storage, ws: seq<Write>, fs: seq<Fault>, n: nat, m: nat)
    requires m <= |ws| && EndsAt(ran, st, ws, Drop(fs, n), m)
    ensures ran.progress == Threw <==> m < |ws| && FaultAt(fs, n + m) == Throws
    ensures ran.progress == Threw ==> ran.faults == Drop(fs, n + m + 1) && ran.storage == ApplyAll(st, ws[..m])
  {
    DropDrop(fs, n, m + 1);
    DropFault(fs, n, m);
  }

  /** The process dies at none of the first n writes. */
  predicate Survives(fs: seq<Fault>, n: nat) {
    forall i :: 0 <= i < n ==> FaultAt(fs, i) != Dies
  }

  lemma SurvivesRest(fs: seq<Fault>, n: nat)
    requires n > 0
    ensures Survives(fs, n) <==> FaultAt(fs, 0) != Dies && Survives(Rest(fs), n - 1)
  {
    assert forall i :: 0 < i ==> FaultAt(fs, i) == FaultAt(Rest(fs), i - 1);
    assert forall i :: 0 <= i ==> FaultAt(Rest(fs), i) == FaultAt(fs, i + 1);
  }

  /** Swallowed writes come to their end if and only if the process dies at none of them. */
  lemma {:induction false} SwallowingByPosition(st: Storage, ws: seq<Write>, fs: seq<Fault>)
    ensures var ran := Swallowing(st, ws, fs);
      && (ran.progress != Crashed <==> Survives(fs, |ws|))
      && (ran.progress != Crashed ==> ran.faults == Drop(fs, |ws|))
    decreases |ws|
  {
    DropNext(fs, 0);
    if ws != [] {
      SurvivesRest(fs, |ws|);
      DropRest(fs, |ws| - 1);
      if Next(fs) != Dies {
        SwallowingByPosition(if Next(fs) == Done then Apply(st, ws[0]) else st, ws[1..], Rest(fs));
      }
    }
  }

  /** The writes that an import begins with: the restores of a journal that was left, and its clearing. */
  function RecoveryWrites(c: Codec, st: Storage, id: string): seq<Write> {
    if JournalKey(id) !in st.prefs then []
    else
      match c.decode(st.prefs[JournalKey(id)])
      case None => []
      case Some(j) => Restores(id, j) + [RemovePref(JournalKey(id))]
  }

  /** A journal that was left can be read. */
  predicate Readable(c: Codec, st: Storage, id: string) {
    JournalKey(id) in st.prefs ==> c.decode(st.prefs[JournalKey(id)]).Some?
  }

  /** The number of the write that opens the journal. */
  function Opening(c: Codec, st: Storage, r: Request): nat {
    |RecoveryWrites(c, st, r.id)|
  }

  /** The number of the first write before the catch block that is not done, out of all there are. */
  function FirstFailure(c: Codec, st: Storage, r: Request, fs: seq<Fault>): nat {
    FirstFault(fs, Opening(c, st, r) + 1 + |ImportWrites(r)|)
  }

  /** One of the import's own writes throws, all before it having been done. */
  predicate CaughtByPosition(c: Codec, st: Storage, r: Request, fs: seq<Fault>) {
    var f, open := FirstFailure(c, st, r, fs), Opening(c, st, r);
    Readable(c, st, r.id) && open < f <= open + |ImportWrites(r)| && FaultAt(fs, f) == Throws
  }

  lemma RecoveryByPosition(c: Codec, st: Storage, r: Request, fs: seq<Fault>)
    requires Readable(c, st, r.id)
    ensures var open := Opening(c, st, r);
      && (Recover(c, st, r.id, fs).progress == Completed <==> FirstFault(fs, open) == open)
      && (FirstFault(fs, open) == open ==> Recover(c, st, r.id, fs).faults == Drop(fs, open))
  {
    var ws := RecoveryWrites(c, st, r.id);
    StrictByPosition(st, ws, fs);
    DropNext(fs, 0);
  }

  /** The first failure f, given the first one k of the recovery and the first one m of the import's own writes. */
  predicate FailsFirst(fs: seq<Fault>, open: nat, k: nat, m: nat, f: nat) {
    f == if k < open then k else if FaultAt(fs, open) != Done then open else open + 1 + m
  }

  lemma FailureAfterOpening(fs: seq<Fault>, open: nat, n: nat)
    ensures FailsFirst(fs, open, FirstFault(fs, open), FirstFault(Drop(fs, open + 1), n), FirstFault(fs, open + 1 + n))
  {
    FirstFaultOfTwo(fs, open, 1 + n);
    DropNext(fs, open);
  }

  /** The storage in which the try block starts. */
  function Opened(c: Codec, st: Storage, r: Request, fs: seq<Fault>): Storage {
    var before := Recover(c, st, r.id, fs).storage;
    Apply(before, PutPref(JournalKey(r.id), c.encode(Snapshot(before, r))))
  }

  /** The recovery and the opening of the journal are done. */
  predicate Opens(fs: seq<Fault>, open: nat) {
    FirstFault(fs, open) == open && FaultAt(fs, open) == Done
  }

  lemma TriedByPosition(c: Codec, st: Storage, r: Request, fs: seq<Fault>)
    requires Readable(c, st, r.id) && Opens(fs, Opening(c, st, r))
    ensures Tried(c, st, r, fs) == Strict(Opened(c, st, r, fs), ImportWrites(r), Drop(fs, Opening(c, st, r) + 1))
  {
    var before, open := Recover(c, st, r.id, fs).storage, Opening(c, st, r);
    RecoveryByPosition(c, st, r, fs);
    DropNext(fs, open);
    StrictOne(before, PutPref(JournalKey(r.id), c.encode(Snapshot(before, r))), Drop(fs, open));
  }

  lemma CatchesByParts(c: Codec, st: Storage, r: Request, fs: seq<Fault>)
    ensures Catches(c, st, r, fs) <==>
      Readable(c, st, r.id) && Opens(fs, Opening(c, st, r)) && Tried(c, st, r, fs).progress == Threw
  {
    if Readable(c, st, r.id) {
      RecoveryByPosition(c, st, r, fs);
      DropNext(fs, Opening(c, st, r));
    }
  }

  predicate EndsWithin(t: Ran, st: Storage, ws: seq<Write>, fs: seq<Fault>, open: nat) {
    EndsAt(t, st, ws, Drop(fs, open + 1), FirstFault(Drop(fs, open + 1), |ws|))
  }

  lemma TriedEnds(c: Codec, st: Storage, r: Request, fs: seq<Fault>)
    ensures Readable(c, st, r.id) && Opens(fs, Opening(c, st, r)) ==>
      EndsWithin(Tried(c, st, r, fs), Opened(c, st, r, fs), ImportWrites(r), fs, Opening(c, st, r))
  {
    if Readable(c, st, r.id) && Opens(fs, Opening(c, st, r)) {
      TriedByPosition(c, st, r, fs);
      StrictByPosition(Opened(c, st, r, fs), ImportWrites(r), Drop(fs, Opening(c, st, r) + 1));
    }
  }

  lemma Located(t: Ran, st: Storage, ws: seq<Write>, fs: seq<Fault>, open: nat, k: nat, m: nat, f: nat)
    requires k <= open && m <= |ws| && FailsFirst(fs, open, k, m, f)
    requires k == open && FaultAt(fs, open) == Done ==> EndsAt(t, st, ws, Drop(fs, open + 1), m)
    ensures var caught := k == open && FaultAt(fs, open) == Done && t.progress == Threw;
      && (caught <==> open < f <= open + |ws| && FaultAt(fs, f) == Throws)
      && (caught ==> t.faults == Drop(fs, f + 1) && t.storage == ApplyAll(st, ws[..f - open - 1]))
  {
    if k == open && FaultAt(fs, open) == Done {
      EndsLater(t, st, ws, fs, open + 1, m);
      assert f == open + 1 + m && open + 1 + m + 1 == f + 1 && f - open - 1 == m;
    }
  }

  /** Write f of the schedule is one of the import's own and throws, and the try block ends there. */
  predicate ThrownAt(t: Ran, st: Storage, ws: seq<Write>, fs: seq<Fault>, open: nat, f: nat) {
    && open < f <= open + |ws| && FaultAt(fs, f) == Throws
    && t.faults == Drop(fs, f + 1) && t.storage == ApplyAll(st, ws[..f - open - 1])
  }

  lemma LocatedFirst(t: Ran, st: Storage, ws: seq<Write>, fs: seq<Fault>, open: nat)
    requires Opens(fs, open) ==> EndsWithin(t, st, ws, fs, open)
    ensures var f := FirstFault(fs, open + 1 + |ws|);
      var caught := Opens(fs, open) && t.progress == Threw;
      && (caught <==> open < f <= open + |ws| && FaultAt(fs, f) == Throws)
      && (caught ==> ThrownAt(t, st, ws, fs, open, f))
  {
    FailureAfterOpening(fs, open, |ws|);
    Located(t, st, ws, fs, open, FirstFault(fs, open), FirstFault(Drop(fs, open + 1), |ws|),
      FirstFault(fs, open + 1 + |ws|));
  }

  /** Where the catch block starts: with which faults left, and after which of the import's writes. */
  lemma CaughtAt(c: Codec, st: Storage, r: Request, fs: seq<Fault>)
    ensures Catches(c, st, r, fs) <==> CaughtByPosition(c, st, r, fs)
    ensures Catches(c, st, r, fs) ==>
      ThrownAt(Tried(c, st, r, fs), Opened(c, st, r, fs), ImportWrites(r), fs, Opening(c, st, r),
               FirstFailure(c, st, r, fs))
  {
    CatchesByParts(c, st, r, fs);
    TriedEnds(c, st, r, fs);
    CaughtFrom(Catches(c, st, r, fs), Tried(c, st, r, fs), Opened(c, st, r, fs), c, st, r, fs);
  }

  lemma CaughtFrom(caught: bool, t: Ran, start: Storage, c: Codec, st: Storage, r: Request, fs: seq<Fault>)
    requires caught <==> Readable(c, st, r.id) && Opens(fs, Opening(c, st, r)) && t.progress == Threw
    requires Readable(c, st, r.id) && Opens(fs, Opening(c, st, r)) ==>
      EndsWithin(t, start, ImportWrites(r), fs, Opening(c, st, r))
    ensures caught <==> CaughtByPosition(c, st, r, fs)
    ensures caught ==> ThrownAt(t, start, ImportWrites(r), fs, Opening(c, st, r), FirstFailure(c, st, r, fs))
  {
    if Readable(c, st, r.id) {
      LocatedFirst(t, start, ImportWrites(r), fs, Opening(c, st, r));
    }
  }

  /** The journal is gone after the catch block exactly if the process does not die in it and the clearing works. */
  predicate ClearedAt(r: Request, fs: seq<Fault>, f: nat) {
    Survives(Drop(fs, f + 1), |r.credentials| + 1) && FaultAt(fs, f + 2 + |r.credentials|) == Done
  }

  lemma CatchClears(c: Codec, st: Storage, r: Request, j: Journal, fs: seq<Fault>, f: nat)
    requires ValidId(r.id) && Pending(c, st, r.id) == Some(j) && |j.secrets| == |r.credentials|
    ensures JournalKey(r.id) !in Undo(st, r.id, j, Drop(fs, f + 1)).storage.prefs <==> ClearedAt(r, fs, f)
  {
    var ws, left := Restores(r.id, j), Drop(fs, f + 1);
    var restored := Swallowing(st, ws, left);
    SwallowingByPosition(st, ws, left);
    RestoresCovered(r.id, j);
    CoveredSwallowing(c, st, ws, left, r.id, j);
    DropDrop(fs, f + 1, |ws|);
    DropNext(fs, f + 2 + |r.credentials|);
    if restored.progress != Crashed {
      StrictOne(restored.storage, RemovePref(JournalKey(r.id)), restored.faults);
    }
  }

  /** After p of the import's writes, the first p secrets are new, and the document once all of them are. */
  lemma WrittenSoFar(st: Storage, r: Request, p: nat)
    requires ValidId(r.id) && p < |ImportWrites(r)|
    ensures var t := ApplyAll(st, ImportWrites(r)[..p]);
      && Get(t.prefs, r.id) == (if p == |r.credentials| + 1 then Some(r.document) else Get(st.prefs, r.id))
      && forall i :: 0 <= i < |r.credentials| ==>
           Get(t.secrets, SecretKey(r.id, r.credentials[i].0)) ==
             if i < p then Some(r.credentials[i].1) else Get(st.secrets, SecretKey(r.id, r.credentials[i].0))
  {
    var n := |r.credentials|;
    var m := if p <= n then p else n;
    var done := r.credentials[..m];
    assert SecretWrites(r.id, done) == SecretWrites(r.id, r.credentials)[..m];
    SecretWritesApplied(st, r.id, done);
    if p == n + 1 {
      var put := PutPref(r.id, r.document);
      assert ImportWrites(r)[..p] == SecretWrites(r.id, done) + [put];
      ApplyAllAppend(st, SecretWrites(r.id, done), [put]);
      assert [put][1..] == [];
    } else {
      assert ImportWrites(r)[..p] == SecretWrites(r.id, done);
    }
    forall i | 0 <= i < n
      ensures FindLast(done, r.credentials[i].0) == if i < m then Some(r.credentials[i].1) else None
    {
      if i < m {
        DistinctFind(done, i);
      } else {
        AbsentName(done, r.credentials[i].0);
      }
    }
  }

  /** After write f has thrown, the document is restored first and then the secrets in order. */
  predicate RestoreThrows(fs: seq<Fault>, f: nat, i: nat) {
    FaultAt(fs, f + 2 + i) == Throws
  }

  /** An entry of profile p that the import had changed by write f, and whose restore threw. */
  ghost predicate LeftChanged(p: Profile, r: Request, fs: seq<Fault>, open: nat, f: nat)
    requires forall name :: name in p.secrets
  {
    || (f == open + |r.credentials| + 2 && Some(r.document) != p.document && FaultAt(fs, f + 1) == Throws)
    || exists i :: 0 <= i < |r.credentials| && open + 1 + i < f && RestoreThrows(fs, f, i)
         && Some(r.credentials[i].1) != p.secrets[r.credentials[i].0]
  }

  /**
   * The faults that tear a profile: the first write that fails is one of the import's own and
   * throws; in the catch block the process does not die and the journal's clearing works; and the
   * restore of some entry throws that had been given a new value by then.
   */
  ghost predicate Tears(c: Codec, st: Storage, r: Request, fs: seq<Fault>) {
    var f := FirstFailure(c, st, r, fs);
    && CaughtByPosition(c, st, r, fs) && ClearedAt(r, fs, f)
    && LeftChanged(Settled(c, st, r.id), r, fs, Opening(c, st, r), f)
  }

  /** What the journal saved is what counts. */
  lemma SavedValues(c: Codec, st: Storage, r: Request, fs: seq<Fault>)
    requires ValidId(r.id) && Recover(c, st, r.id, fs).progress == Completed
    ensures var p, j := Settled(c, st, r.id), Saved(c, st, r, fs);
      j.document == p.document && forall i :: 0 <= i < |r.credentials| ==>
        j.secrets[i].1 == p.secrets[r.credentials[i].0]
  {
    RecoverKeepsProfile(c, st, r.id, fs);
  }

  /** What the stores hold when the catch block starts. */
  lemma TriedValues(c: Codec, st: Storage, r: Request, fs: seq<Fault>)
    requires ValidId(r.id) && Catches(c, st, r, fs)
    ensures var f, open, j := FirstFailure(c, st, r, fs), Opening(c, st, r), Saved(c, st, r, fs);
      var t := Tried(c, st, r, fs).storage;
      && open < f <= open + |r.credentials| + 2
      && Get(t.prefs, r.id) == (if f == open + |r.credentials| + 2 then Some(r.document) else j.document)
      && forall i :: 0 <= i < |r.credentials| ==>
           Get(t.secrets, SecretKey(r.id, r.credentials[i].0)) ==
             if open + 1 + i < f then Some(r.credentials[i].1) else j.secrets[i].1
  {
    CaughtAt(c, st, r, fs);
    JournalKeysApart(r.id, r.id);
    WrittenSoFar(Opened(c, st, r, fs), r, FirstFailure(c, st, r, fs) - Opening(c, st, r) - 1);
  }

  lemma ChangedByPosition(c: Codec, st: Storage, r: Request, fs: seq<Fault>)
    requires ValidId(r.id) && Catches(c, st, r, fs)
    ensures Unchanged(Tried(c, st, r, fs).storage, r, Saved(c, st, r, fs), Tried(c, st, r, fs).faults) <==>
      !LeftChanged(Settled(c, st, r.id), r, fs, Opening(c, st, r), FirstFailure(c, st, r, fs))
  {
    CaughtAt(c, st, r, fs);
    SavedValues(c, st, r, fs);
    TriedValues(c, st, r, fs);
    UnchangedOf(Tried(c, st, r, fs), r, Saved(c, st, r, fs), Settled(c, st, r.id), fs, Opening(c, st, r),
      FirstFailure(c, st, r, fs));
  }

  lemma UnchangedOf(t: Ran, r: Request, j: Journal, p: Profile, fs: seq<Fault>, open: nat, f: nat)
    requires t.faults == Drop(fs, f + 1) && |j.secrets| == |r.credentials| && forall name :: name in p.secrets
    requires j.document == p.document
    requires forall i :: 0 <= i < |r.credentials| ==> j.secrets[i].1 == p.secrets[r.credentials[i].0]
    requires Get(t.storage.prefs, r.id) ==
      (if f == open + |r.credentials| + 2 then Some(r.document) else j.document)
    requires forall i :: 0 <= i < |r.credentials| ==>
      Get(t.storage.secrets, SecretKey(r.id, r.credentials[i].0)) ==
        if open + 1 + i < f then Some(r.credentials[i].1) else j.secrets[i].1
    ensures Unchanged(t.storage, r, j, t.faults) <==> !LeftChanged(p, r, fs, open, f)
  {
    DropFault(fs, f + 1, 0);
    forall i | 0 <= i < |r.credentials| ensures ThrowsAt(t.faults, i + 1) <==> RestoreThrows(fs, f, i) {
      DropFault(fs, f + 1, i + 1);
    }
  }

  /** The catch block starts with the import's journal in place. */
  lemma CaughtJournal(c: Codec, st: Storage, r: Request, fs: seq<Fault>)
    requires Lawful(c) && ValidId(r.id) && Catches(c, st, r, fs)
    ensures Pending(c, Tried(c, st, r, fs).storage, r.id) == Some(Saved(c, st, r, fs))
    ensures Settled(c, Tried(c, st, r, fs).storage, r.id) == Settled(c, st, r.id)
    ensures Import(c, st, r, fs) ==
      Undo(Tried(c, st, r, fs).storage, r.id, Saved(c, st, r, fs), Tried(c, st, r, fs).faults)
    ensures Import(c, st, r, fs).progress != Completed
  {
    var before, j := Recover(c, st, r.id, fs).storage, Saved(c, st, r, fs);
    var write := PutPref(JournalKey(r.id), c.encode(j));
    RecoverKeepsProfile(c, st, r.id, fs);
    StrictOne(before, write, Recover(c, st, r.id, fs).faults);
    JournalOpened(c, before, r);
    TriesCovered(before, r);
    TryBlock(c, Apply(before, write), r, j, Rest(Recover(c, st, r.id, fs).faults));
  }

  /**
   * Exactly when an import is atomic, over every import: afterwards the profile that counts is the
   * committed one if importProfile returned and the earlier one otherwise, unless its faults tear it.
   */
  lemma AtomicExactly(c: Codec, st: Storage, r: Request, fs: seq<Fault>)
    requires Lawful(c) && ValidId(r.id)
    ensures var ran, before := Import(c, st, r, fs), Settled(c, st, r.id);
      var due := if ran.progress == Completed then Committed(before, r) else before;
      Settled(c, ran.storage, r.id) == due <==> !Tears(c, st, r, fs)
  {
    CaughtAt(c, st, r, fs);
    if Catches(c, st, r, fs) {
      CaughtExactly(c, st, r, fs);
    } else {
      ImportIsAtomic(c, st, r, fs);
    }
  }

  /** After the catch block the journal is gone exactly if it was cleared; if it is not, nothing has changed. */
  lemma CaughtClears(c: Codec, st: Storage, r: Request, fs: seq<Fault>)
    requires Lawful(c) && ValidId(r.id) && Catches(c, st, r, fs)
    ensures var end := Import(c, st, r, fs).storage;
      && (JournalKey(r.id) !in end.prefs <==> ClearedAt(r, fs, FirstFailure(c, st, r, fs)))
      && (JournalKey(r.id) in end.prefs ==> Settled(c, end, r.id) == Settled(c, st, r.id))
  {
    var t := Tried(c, st, r, fs);
    CaughtAt(c, st, r, fs);
    CaughtJournal(c, st, r, fs);
    ClearsFrom(c, t.storage, t.faults, r, Saved(c, st, r, fs), fs, FirstFailure(c, st, r, fs));
  }

  lemma ClearsFrom(c: Codec, t: Storage, left: seq<Fault>, r: Request, j: Journal, fs: seq<Fault>, f: nat)
    requires ValidId(r.id) && Pending(c, t, r.id) == Some(j) && |j.secrets| == |r.credentials|
    requires left == Drop(fs, f + 1)
    ensures var end := Undo(t, r.id, j, left).storage;
      && (JournalKey(r.id) !in end.prefs <==> ClearedAt(r, fs, f))
      && (JournalKey(r.id) in end.prefs ==> Settled(c, end, r.id) == Settled(c, t, r.id))
  {
    CatchClears(c, t, r, j, fs, f);
    CatchBlock(c, t, r.id, j, left);
  }

  lemma CaughtExactly(c: Codec, st: Storage, r: Request, fs: seq<Fault>)
    requires Lawful(c) && ValidId(r.id) && Catches(c, st, r, fs)
    ensures Import(c, st, r, fs).progress != Completed
    ensures Settled(c, Import(c, st, r, fs).storage, r.id) == Settled(c, st, r.id) <==> !Tears(c, st, r, fs)
  {
    CaughtAt(c, st, r, fs);
    CaughtJournal(c, st, r, fs);
    CaughtClears(c, st, r, fs);
    ChangedByPosition(c, st, r, fs);
    if JournalKey(r.id) !in Import(c, st, r, fs).storage.prefs {
      FailedImportExact(c, st, r, fs);
    }
  }

  // ---- When an import returns ----

  /** The number of writes of an import that returns: undoing a journal that was left, and its own. */
  function WritesNeeded(c: Codec, st: Storage, r: Request): nat
    requires Readable(c, st, r.id)
  {
    (if JournalKey(r.id) in st.prefs then |c.decode(st.prefs[JournalKey(r.id)]).value.secrets| + 2 else 0)
    + |r.credentials| + 3
  }

  predicate AllDone(fs: seq<Fault>, n: nat) {
    forall i :: 0 <= i < n ==> FaultAt(fs, i) == Done
  }

  lemma AllDoneByPosition(fs: seq<Fault>, n: nat)
    ensures AllDone(fs, n) <==> FirstFault(fs, n) == n
  {
    FirstFaultMeans(fs, n);
  }

  lemma UndoNeverReturns(st: Storage, id: string, j: Journal, fs: seq<Fault>)
    ensures Undo(st, id, j, fs).progress != Completed
    ensures Undo(st, id, j, fs).progress == Crashed <==> !Survives(fs, |j.secrets| + 2)
  {
    var ws, clear := Restores(id, j), RemovePref(JournalKey(id));
    var undone := Swallowing(st, ws, fs);
    SwallowingEnds(st, ws, fs);
    SwallowingByPosition(st, ws, fs);
    StrictOne(undone.storage, clear, undone.faults);
    DropNext(fs, |ws|);
    assert Survives(fs, |ws| + 1) <==> Survives(fs, |ws|) && FaultAt(fs, |ws|) != Dies;
  }

  /** An import whose recovery and journal are written continues with its try block. */
  lemma ImportOpened(c: Codec, st: Storage, r: Request, fs: seq<Fault>)
    requires Readable(c, st, r.id) && Opens(fs, Opening(c, st, r))
    ensures var t := Tried(c, st, r, fs);
      Import(c, st, r, fs) == if t.progress != Threw then t else Undo(t.storage, r.id, Saved(c, st, r, fs), t.faults)
  {
    var open, recovered := Opening(c, st, r), Recover(c, st, r.id, fs);
    RecoveryByPosition(c, st, r, fs);
    DropNext(fs, open);
    StrictOne(recovered.storage, PutPref(JournalKey(r.id), c.encode(Snapshot(recovered.storage, r))), Drop(fs, open));
  }

  /** An import that does not get there halts with its first fault. */
  lemma ImportNotOpened(c: Codec, st: Storage, r: Request, fs: seq<Fault>)
    requires Readable(c, st, r.id) && !Opens(fs, Opening(c, st, r))
    ensures var open, k := Opening(c, st, r), FirstFault(fs, Opening(c, st, r));
      Import(c, st, r, fs).progress == if FaultAt(fs, if k < open then k else open) == Dies then Crashed else Threw
  {
    var open, recovered := Opening(c, st, r), Recover(c, st, r.id, fs);
    RecoveryByPosition(c, st, r, fs);
    FirstFaultMeans(fs, open);
    if FirstFault(fs, open) < open {
      RecoveryCutShort(c, st, r.id, fs);
    } else {
      DropNext(fs, open);
      StrictOne(recovered.storage, PutPref(JournalKey(r.id), c.encode(Snapshot(recovered.storage, r))), Drop(fs, open));
    }
  }

  lemma RecoveryCutShort(c: Codec, st: Storage, id: string, fs: seq<Fault>)
    requires Readable(c, st, id) && FirstFault(fs, |RecoveryWrites(c, st, id)|) < |RecoveryWrites(c, st, id)|
    ensures Recover(c, st, id, fs).progress ==
      if FaultAt(fs, FirstFault(fs, |RecoveryWrites(c, st, id)|)) == Dies then Crashed else Threw
  {
    var ws := RecoveryWrites(c, st, id);
    StrictByPosition(st, ws, fs);
    FirstFaultMeans(fs, |ws|);
  }

  /** How a run halts whose first fault of n writes is number f, the last `own` of them being caught. */
  predicate HaltsAt(p: Progress, fs: seq<Fault>, n: nat, own: nat, f: nat) {
    p == if f == n then Completed
         else if FaultAt(fs, f) == Dies then Crashed
         else if f >= n - own && !Survives(Drop(fs, f + 1), own) then Crashed
         else Threw
  }

  /** How a run of `own` writes, the first of them number `start`, halted, if m of them were done. */
  predicate HaltedAfter(p: Progress, left: seq<Fault>, fs: seq<Fault>, start: nat, own: nat, m: nat) {
    && p == (if m == own then Completed else if FaultAt(fs, start + m) == Throws then Threw else Crashed)
    && (p == Threw ==> left == Drop(fs, start + m + 1))
  }

  lemma EndsHow(t: Ran, st: Storage, ws: seq<Write>, fs: seq<Fault>, n: nat, m: nat)
    requires m <= |ws| && EndsAt(t, st, ws, Drop(fs, n), m)
    ensures HaltedAfter(t.progress, t.faults, fs, n, |ws|, m)
  {
    DropFault(fs, n, m);
    DropDrop(fs, n, m + 1);
  }

  lemma EndsWithinHow(t: Ran, st: Storage, ws: seq<Write>, fs: seq<Fault>, open: nat)
    requires EndsWithin(t, st, ws, fs, open)
    ensures HaltedAfter(t.progress, t.faults, fs, open + 1, |ws|, FirstFault(Drop(fs, open + 1), |ws|))
  {
    EndsHow(t, st, ws, fs, open + 1, FirstFault(Drop(fs, open + 1), |ws|));
  }

  lemma OwnFirstFault(fs: seq<Fault>, open: nat, n: nat)
    requires Opens(fs, open)
    ensures var m := FirstFault(Drop(fs, open + 1), n);
      FirstFault(fs, open + 1 + n) == open + 1 + m && (m < n ==> FaultAt(fs, open + 1 + m) != Done)
  {
    FailureAfterOpening(fs, open, n);
    FirstFaultMeans(Drop(fs, open + 1), n);
    DropFault(fs, open + 1, FirstFault(Drop(fs, open + 1), n));
  }

  lemma HaltsLater(p: Progress, left: seq<Fault>, undone: Progress, fs: seq<Fault>, start: nat, own: nat, m: nat,
                   f: nat)
    requires m <= own && f == start + m && (m < own ==> FaultAt(fs, f) != Done)
    requires HaltedAfter(p, left, fs, start, own, m)
    requires p == Threw ==> undone == if Survives(left, own) then Threw else Crashed
    ensures HaltsAt(if p == Threw then undone else p, fs, start + own, own, f)
  {
  }

  lemma HaltsOpened(c: Codec, st: Storage, r: Request, fs: seq<Fault>)
    requires Readable(c, st, r.id) && Opens(fs, Opening(c, st, r))
    ensures HaltsFirst(Import(c, st, r, fs).progress, fs, Opening(c, st, r), |ImportWrites(r)|)
  {
    var open, ws, t := Opening(c, st, r), ImportWrites(r), Tried(c, st, r, fs);
    ImportOpened(c, st, r, fs);
    TriedEnds(c, st, r, fs);
    EndsWithinHow(t, Opened(c, st, r, fs), ws, fs, open);
    UndoNeverReturns(t.storage, r.id, Saved(c, st, r, fs), t.faults);
    HaltsWithin(t.progress, t.faults, Undo(t.storage, r.id, Saved(c, st, r, fs), t.faults).progress, fs, open, |ws|);
  }

  predicate HaltsFirst(p: Progress, fs: seq<Fault>, open: nat, own: nat) {
    HaltsAt(p, fs, open + 1 + own, own, FirstFault(fs, open + 1 + own))
  }

  lemma HaltsWithin(p: Progress, left: seq<Fault>, undone: Progress, fs: seq<Fault>, open: nat, own: nat)
    requires Opens(fs, open) && HaltedAfter(p, left, fs, open + 1, own, FirstFault(Drop(fs, open + 1), own))
    requires p == Threw ==> undone == if Survives(left, own) then Threw else Crashed
    ensures HaltsFirst(if p == Threw then undone else p, fs, open, own)
  {
    OwnFirstFault(fs, open, own);
    HaltsLater(p, left, undone, fs, open + 1, own, FirstFault(Drop(fs, open + 1), own), FirstFault(fs, open + 1 + own));
  }

  lemma FirstIsEarly(fs: seq<Fault>, open: nat, n: nat)
    requires !Opens(fs, open)
    ensures var f := FirstFault(fs, open + 1 + n);
      f == (if FirstFault(fs, open) < open then FirstFault(fs, open) else open) && f < open + 1
  {
    FailureAfterOpening(fs, open, n);
  }

  lemma HaltsEarly(p: Progress, fs: seq<Fault>, open: nat, own: nat, f: nat)
    requires f < open + 1 && p == if FaultAt(fs, f) == Dies then Crashed else Threw
    ensures HaltsAt(p, fs, open + 1 + own, own, f)
  {
  }

  lemma HaltsNotOpened(c: Codec, st: Storage, r: Request, fs: seq<Fault>)
    requires Readable(c, st, r.id) && !Opens(fs, Opening(c, st, r))
    ensures HaltsFirst(Import(c, st, r, fs).progress, fs, Opening(c, st, r), |ImportWrites(r)|)
  {
    var open, own := Opening(c, st, r), |ImportWrites(r)|;
    ImportNotOpened(c, st, r, fs);
    FirstIsEarly(fs, open, own);
    HaltsEarly(Import(c, st, r, fs).progress, fs, open, own, FirstFault(fs, open + 1 + own));
  }

  lemma NeededByPosition(c: Codec, st: Storage, r: Request)
    requires Readable(c, st, r.id)
    ensures WritesNeeded(c, st, r) == Opening(c, st, r) + 1 + |ImportWrites(r)|
    ensures |ImportWrites(r)| == |r.credentials| + 2
  {
  }

  /** How an import halts, by the first of its writes that is not done; the last ones are in the try block. */
  lemma ImportHalts(c: Codec, st: Storage, r: Request, fs: seq<Fault>)
    requires Readable(c, st, r.id)
    ensures var n := WritesNeeded(c, st, r);
      HaltsAt(Import(c, st, r, fs).progress, fs, n, |r.credentials| + 2, FirstFault(fs, n))
  {
    NeededByPosition(c, st, r);
    ImportHaltsFirst(c, st, r, fs);
  }

  lemma ImportHaltsFirst(c: Codec, st: Storage, r: Request, fs: seq<Fault>)
    requires Readable(c, st, r.id)
    ensures HaltsFirst(Import(c, st, r, fs).progress, fs, Opening(c, st, r), |ImportWrites(r)|)
  {
    if Opens(fs, Opening(c, st, r)) {
      HaltsOpened(c, st, r, fs);
    } else {
      HaltsNotOpened(c, st, r, fs);
    }
  }

  /**
   * A recovery returns if and only if there is no journal, or one that can be read and every restore
   * and the clearing are done. A journal that cannot be read makes it throw before it writes.
   */
  lemma RecoveryReturns(c: Codec, st: Storage, id: string, fs: seq<Fault>)
    ensures Readable(c, st, id) ==>
      (Recover(c, st, id, fs).progress == Completed <==>
        AllDone(fs, if JournalKey(id) in st.prefs then |c.decode(st.prefs[JournalKey(id)]).value.secrets| + 2 else 0))
    ensures !Readable(c, st, id) ==> Recover(c, st, id, fs) == Ran(st, fs, Threw)
  {
    if Readable(c, st, id) {
      var ws := RecoveryWrites(c, st, id);
      StrictByPosition(st, ws, fs);
      AllDoneByPosition(fs, |ws|);
    }
  }

  /**
   * An import returns if and only if a journal that was left can be read and every write it takes is
   * done. Then no journal is left, and the stores hold the committed profile.
   */
  lemma ImportReturns(c: Codec, st: Storage, r: Request, fs: seq<Fault>)
    requires Lawful(c) && ValidId(r.id)
    ensures Import(c, st, r, fs).progress == Completed <==>
      Readable(c, st, r.id) && AllDone(fs, WritesNeeded(c, st, r))
    ensures Import(c, st, r, fs).progress == Completed ==>
      var end := Import(c, st, r, fs).storage;
      JournalKey(r.id) !in end.prefs && StoredProfile(end, r.id) == Committed(Settled(c, st, r.id), r)
  {
    if Readable(c, st, r.id) {
      ImportHalts(c, st, r, fs);
      AllDoneByPosition(fs, WritesNeeded(c, st, r));
      if Import(c, st, r, fs).progress == Completed {
        ReturnsSettled(c, st, r, fs);
      }
    }
  }

  lemma ReturnsSettled(c: Codec, st: Storage, r: Request, fs: seq<Fault>)
    requires Lawful(c) && ValidId(r.id) && Readable(c, st, r.id) && Import(c, st, r, fs).progress == Completed
    ensures var end := Import(c, st, r, fs).storage;
      JournalKey(r.id) !in end.prefs && StoredProfile(end, r.id) == Committed(Settled(c, st, r.id), r)
  {
    var end := Import(c, st, r, fs).storage;
    if !Opens(fs, Opening(c, st, r)) {
      ImportNotOpened(c, st, r, fs);
    } else {
      var t := Tried(c, st, r, fs);
      ImportOpened(c, st, r, fs);
      UndoNeverReturns(t.storage, r.id, Saved(c, st, r, fs), t.faults);
      CatchesByParts(c, st, r, fs);
      ImportIsAtomic(c, st, r, fs);
      TriedByPosition(c, st, r, fs);
      StrictCompletes(Opened(c, st, r, fs), ImportWrites(r), Drop(fs, Opening(c, st, r) + 1));
      JournalCleared(Opened(c, st, r, fs), r);
      assert Pending(c, end, r.id).None?;
    }
  }

  lemma JournalCleared(st: Storage, r: Request)
    ensures JournalKey(r.id) !in ApplyAll(st, ImportWrites(r)).prefs
  {
    var ws, clear := SecretWrites(r.id, r.credentials) + [PutPref(r.id, r.document)], RemovePref(JournalKey(r.id));
    assert ImportWrites(r) == ws + [clear];
    ApplyAllAppend(st, ws, [clear]);
    assert [clear][1..] == [];
  }

  /** The same read off the two stores: the document and every credential are there, and nothing else moved. */
  lemma ReturnedStores(c: Codec, st: Storage, r: Request, fs: seq<Fault>)
    requires Lawful(c) && ValidId(r.id) && Import(c, st, r, fs).progress == Completed
    requires JournalKey(r.id) !in st.prefs
    ensures var end := Import(c, st, r, fs).storage;
      && Get(end.prefs, r.id) == Some(r.document)
      && (forall i :: 0 <= i < |r.credentials| ==>
            Get(end.secrets, "profile:" + r.id + ":" + r.credentials[i].0) == Some(r.credentials[i].1))
      && (forall name: string :: (forall i :: 0 <= i < |r.credentials| ==> r.credentials[i].0 != name) ==>
            Get(end.secrets, SecretKey(r.id, name)) == Get(st.secrets, SecretKey(r.id, name)))
      && SameElsewhere(end, st, r.id)
  {
    ImportReturns(c, st, r, fs);
    ImportStaysInScope(c, st, r, fs);
    var end := Import(c, st, r, fs).storage;
    var p := StoredProfile(end, r.id);
    forall i | 0 <= i < |r.credentials|
      ensures Get(end.secrets, SecretKey(r.id, r.credentials[i].0)) == Some(r.credentials[i].1)
    {
      DistinctFind(r.credentials, i);
      assert p.secrets[r.credentials[i].0] == Some(r.credentials[i].1);
    }
    forall name: string | forall i :: 0 <= i < |r.credentials| ==> r.credentials[i].0 != name
      ensures Get(end.secrets, SecretKey(r.id, name)) == Get(st.secrets, SecretKey(r.id, name))
    {
      AbsentName(r.credentials, name);
      assert p.secrets[name] == StoredProfile(st, r.id).secrets[name];
    }
  }

  const PROFILE := "abc"
  const BEFORE := Storage(map["abc" := "old"], map["profile:abc:password" := "old secret"])
  const NEW := Request("abc", [("password", "new secret")], "new")

  /**
   * Without that condition atomicity fails: the secret is written, the document write throws, the
   * secret's restore throws and is swallowed, and clearing the journal makes the mixture final.
   */
  lemma SwallowedRestoreTears(c: Codec)
    requires Lawful(c)
    ensures var ran := Import(c, BEFORE, NEW, [Done, Done, Throws, Done, Throws, Done]);
      && ran.progress == Threw
      && Get(ran.storage.prefs, PROFILE) == Some("old") && JournalKey(PROFILE) !in ran.storage.prefs
      && Get(ran.storage.secrets, SecretKey(PROFILE, "password")) == Some("new secret")
      && Settled(c, ran.storage, PROFILE) != Settled(c, BEFORE, PROFILE)
      && Settled(c, ran.storage, PROFILE) != Committed(Settled(c, BEFORE, PROFILE), NEW)
  {
    JournalKeysApart(PROFILE, PROFILE);
    var fs := [Done, Done, Throws, Done, Throws, Done];
    var key, id := SecretKey(PROFILE, "password"), PROFILE;
    assert key == "profile:abc:password";
    var j := Snapshot(BEFORE, NEW);
    assert j == Journal(Some("old"), [("password", Some("old secret"))]);
    var write := PutPref(JournalKey(id), c.encode(j));
    StrictOne(BEFORE, write, fs);
    var s1 := Apply(BEFORE, write);
    var ws := ImportWrites(NEW);
    assert ws == [PutSecret(key, "new secret"), PutPref(id, "new"), RemovePref(JournalKey(id))];
    var s2 := Apply(s1, ws[0]);
    assert Strict(s1, ws, fs[1..]) == Ran(s2, fs[3..], Threw) by {
      assert fs[1..][1..] == fs[2..] && fs[2..][1..] == fs[3..];
      assert Strict(s1, ws, fs[1..]) == Strict(s2, ws[1..], fs[2..]);
    }
    var rs := Restores(id, j);
    assert rs == [PutPref(id, "old"), PutSecret(key, "old secret")];
    var s3 := Apply(s2, rs[0]);
    assert Swallowing(s2, rs, fs[3..]) == Ran(s3, fs[5..], Completed) by {
      assert fs[3..][1..] == fs[4..] && fs[4..][1..] == fs[5..] && rs[1..][1..] == [];
      assert Swallowing(s2, rs, fs[3..]) == Swallowing(s3, rs[1..], fs[4..]);
      assert Swallowing(s3, rs[1..], fs[4..]) == Swallowing(s3, [], fs[5..]);
    }
    StrictOne(s3, RemovePref(JournalKey(id)), fs[5..]);
    var end := Import(c, BEFORE, NEW, fs).storage;
    assert end == Apply(s3, RemovePref(JournalKey(id)));
    assert StoredProfile(end, id).secrets["password"] == Some("new secret");
    assert StoredProfile(BEFORE, id).secrets["password"] == Some("old secret");
  }
}
