// Merging one VM's entries into a user's kubeconfig and taking them out again, as operations on
// parsed documents.
module Kubeconfig {
  import opened Sequences
  import opened Wrappers

  datatype Result<T> = Ok(value: T) | Failed

  /** Fields that are carried along and never looked at. */
  type Fields = map<string, string>

  datatype Entry<T> = Entry(name: string, body: T)

  datatype ContextRef = ContextRef(cluster: string, user: string, other: Fields)

  type Cluster = Entry<Fields>
  type User = Entry<Fields>
  type Context = Entry<ContextRef>

  datatype Document = Document(
    apiVersion: string, kind: string,
    clusters: seq<Cluster>, users: seq<User>, contexts: seq<Context>,
    current: string, other: Fields)

  const EMPTY := Document("", "", [], [], [], "", map[])

  // ---- Entries by name ----

  /** The entries of that name, or with `same` false the entries of all other names. */
  function Pick<T>(entries: seq<Entry<T>>, name: string, same: bool): seq<Entry<T>> {
    if entries == [] then []
    else
      var k := |entries| - 1;
      if (entries[k].name == name) == same then Pick(entries[..k], name, same) + [entries[k]]
      else Pick(entries[..k], name, same)
  }

  function Named<T>(entries: seq<Entry<T>>, name: string): seq<Entry<T>> { Pick(entries, name, true) }

  function Others<T>(entries: seq<Entry<T>>, name: string): seq<Entry<T>> { Pick(entries, name, false) }

  predicate HasName<T(==)>(entries: seq<Entry<T>>, name: string) {
    exists e :: e in entries && e.name == name
  }

  method FindEntries<T>(entries: seq<Entry<T>>, name: string) returns (found: seq<Entry<T>>)
    ensures found == Named(entries, name)
  {
    found := [];
    for i := 0 to |entries|
      invariant found == Named(entries[..i], name)
    {
      assert entries[..i + 1][..i] == entries[..i];
      if entries[i].name == name {
        found := found + [entries[i]];
      }
    }
    assert entries[..|entries|] == entries;
  }

  method FilterEntries<T>(entries: seq<Entry<T>>, name: string) returns (rest: seq<Entry<T>>)
    ensures rest == Others(entries, name)
  {
    rest := [];
    for i := 0 to |entries|
      invariant rest == Others(entries[..i], name)
    {
      assert entries[..i + 1][..i] == entries[..i];
      if entries[i].name != name {
        rest := rest + [entries[i]];
      }
    }
    assert entries[..|entries|] == entries;
  }

  lemma PickSnoc<T>(entries: seq<Entry<T>>, e: Entry<T>, name: string, same: bool)
    ensures (e.name == name) == same ==> Pick(entries + [e], name, same) == Pick(entries, name, same) + [e]
    ensures (e.name == name) != same ==> Pick(entries + [e], name, same) == Pick(entries, name, same)
  {
    assert (entries + [e])[..|entries|] == entries;
  }

  lemma {:induction false} PickOfBoth<T>(a: seq<Entry<T>>, b: seq<Entry<T>>, name: string, same: bool)
    ensures Pick(a + b, name, same) == Pick(a, name, same) + Pick(b, name, same)
  {
    if b == [] {
      assert a + b == a;
    } else {
      hide Pick;
      var init, e := b[..|b| - 1], b[|b| - 1];
      Unsnoc(b);
      Assoc(a, init, [e]);
      PickOfBoth(a, init, name, same);
      PickSnoc(init, e, name, same);
      PickSnoc(a + init, e, name, same);
      Assoc(Pick(a, name, same), Pick(init, name, same), [e]);
    }
  }

  lemma {:induction false} PickedAreThose<T>(entries: seq<Entry<T>>, name: string, same: bool)
    ensures forall e :: e in Pick(entries, name, same) ==> e in entries && (e.name == name) == same
    ensures forall e :: e in entries && (e.name == name) == same ==> e in Pick(entries, name, same)
  {
    if entries != [] {
      PickedAreThose(entries[..|entries| - 1], name, same);
      assert entries == entries[..|entries| - 1] + [entries[|entries| - 1]];
    }
  }

  lemma {:induction false} PickOfAll<T>(entries: seq<Entry<T>>, name: string, same: bool)
    requires forall e :: e in entries ==> (e.name == name) == same
    ensures Pick(entries, name, same) == entries
  {
    if entries != [] {
      PickOfAll(entries[..|entries| - 1], name, same);
      assert entries == entries[..|entries| - 1] + [entries[|entries| - 1]];
    }
  }

  lemma {:induction false} PickOfNone<T>(entries: seq<Entry<T>>, name: string, same: bool)
    requires forall e :: e in entries ==> (e.name == name) != same
    ensures Pick(entries, name, same) == []
  {
    if entries != [] {
      PickOfNone(entries[..|entries| - 1], name, same);
    }
  }

  lemma NoneNamed<T>(entries: seq<Entry<T>>, name: string)
    ensures !HasName(entries, name) <==> Named(entries, name) == []
    ensures !HasName(entries, name) <==> Others(entries, name) == entries
  {
    hide Pick;
    PickedAreThose(entries, name, true);
    PickedAreThose(entries, name, false);
    if HasName(entries, name) {
      var e :| e in entries && e.name == name;
      assert e in Named(entries, name) && e !in Others(entries, name);
    } else {
      PickOfNone(entries, name, true);
      PickOfAll(entries, name, false);
    }
  }

  /** Entries of another name are not touched: same fields, same order. */
  lemma {:induction false} OthersKeepNamed<T>(entries: seq<Entry<T>>, name: string, n: string)
    requires n != name
    ensures Named(Others(entries, name), n) == Named(entries, n)
  {
    if entries != [] {
      hide Pick;
      var init, e := entries[..|entries| - 1], entries[|entries| - 1];
      OthersKeepNamed(init, name, n);
      assert entries == init + [e];
      PickSnoc(init, e, name, false);
      PickSnoc(init, e, n, true);
      PickSnoc(Others(init, name), e, n, true);
    }
  }

  // ---- The operations ----

  predicate HasEntry(d: Document, name: string) {
    HasName(d.clusters, name) || HasName(d.users, name) || HasName(d.contexts, name)
  }

  function Removed(d: Document, name: string): Document {
    d.(clusters := Others(d.clusters, name), users := Others(d.users, name), contexts := Others(d.contexts, name))
  }

  function Appended(d: Document, source: Document, name: string): Document {
    d.(clusters := d.clusters + Named(source.clusters, name),
       users := d.users + Named(source.users, name),
       contexts := d.contexts + Named(source.contexts, name))
  }

  function Normalized(d: Document): Document {
    d.(apiVersion := if d.apiVersion == "" then "v1" else d.apiVersion,
       kind := if d.kind == "" then "Config" else d.kind)
  }

  predicate ExactlyOne(source: Document, name: string) {
    |Named(source.clusters, name)| == 1 && |Named(source.users, name)| == 1 && |Named(source.contexts, name)| == 1
  }

  function Merged(target: Document, source: Document, name: string, replace: bool, setCurrent: bool): Result<Document> {
    if !ExactlyOne(source, name) || (!replace && HasEntry(target, name)) then Failed
    else
      var d := Appended(Removed(target, name), source, name);
      Ok(Normalized(if setCurrent then d.(current := name) else d))
  }

  predicate Referenced(d: Document, name: string) {
    exists c :: c in d.contexts && RefersTo(c, name)
  }

  predicate RefersTo(c: Context, name: string) {
    c.name != name && (c.body.cluster == name || c.body.user == name)
  }

  function Unmerged(d: Document, name: string): Result<Document> {
    if Referenced(d, name) then Failed
    else
      var next := Removed(d, name).(current := if d.current == name then "" else d.current);
      Ok(if next == d then d else Normalized(next))
  }

  method EntryReferencedByOtherContext(d: Document, name: string) returns (found: bool)
    ensures found <==> Referenced(d, name)
  {
    for i := 0 to |d.contexts|
      invariant forall j :: 0 <= j < i ==> !RefersTo(d.contexts[j], name)
    {
      if d.contexts[i].name == name {
        continue;
      }
      if d.contexts[i].body.cluster == name || d.contexts[i].body.user == name {
        assert d.contexts[i] in d.contexts;
        return true;
      }
    }
    found := false;
  }

  method RemoveEntry(d: Document, name: string) returns (next: Document)
    ensures next == Removed(d, name)
  {
    next := d;
    var clusters := FilterEntries(d.clusters, name);
    var users := FilterEntries(d.users, name);
    var contexts := FilterEntries(d.contexts, name);
    next := next.(clusters := clusters, users := users, contexts := contexts);
  }

  method AppendEntry(target: Document, source: Document, name: string) returns (next: Document)
    ensures next == Appended(target, source, name)
  {
    var clusters := FindEntries(source.clusters, name);
    var users := FindEntries(source.users, name);
    var contexts := FindEntries(source.contexts, name);
    next := target.(clusters := target.clusters + clusters, users := target.users + users, contexts := target.contexts + contexts);
  }

  method RequireEntry(source: Document, name: string) returns (ok: bool)
    ensures ok <==> ExactlyOne(source, name)
  {
    var clusters := FindEntries(source.clusters, name);
    var users := FindEntries(source.users, name);
    var contexts := FindEntries(source.contexts, name);
    ok := |clusters| == 1 && |users| == 1 && |contexts| == 1;
  }

  method FindsEntry(d: Document, name: string) returns (has: bool)
    ensures has <==> HasEntry(d, name)
  {
    var clusters := FindEntries(d.clusters, name);
    var users := FindEntries(d.users, name);
    var contexts := FindEntries(d.contexts, name);
    NoneNamed(d.clusters, name);
    NoneNamed(d.users, name);
    NoneNamed(d.contexts, name);
    has := |clusters| > 0 || |users| > 0 || |contexts| > 0;
  }

  /** A kubeconfig on disk; a missing or blank file reads as the empty document. */
  class File {
    var content: Option<Document>
    /** Whether it can always be read and written. */
    const reliable: bool

    constructor (content: Option<Document>, reliable: bool)
      ensures this.content == content && this.reliable == reliable
    {
      this.content, this.reliable := content, reliable;
    }

    function Read(): Document
      reads this
    {
      if content.None? then EMPTY else content.value
    }

    /** A temporary file renamed over the target: all or nothing. */
    method WriteAtomic(d: Document) returns (ok: bool)
      modifies this
      ensures content == if ok then Some(d) else old(content)
      ensures reliable ==> ok
    {
      ok := *;
      ok := ok || reliable;
      if ok {
        content := Some(d);
      }
    }

    /** Reading or writing may fail; nothing else does but what `Merged` refuses. */
    method Merge(source: Document, name: string, replace: bool, setCurrent: bool) returns (ok: bool)
      modifies this
      ensures ok ==> Merged(old(Read()), source, name, replace, setCurrent) == Ok(Read())
      ensures !ok ==> content == old(content)
      ensures reliable ==> (ok <==> Merged(old(Read()), source, name, replace, setCurrent).Ok?)
    {
      var one := RequireEntry(source, name);
      if !one {
        return false;
      }
      var readable: bool := *;
      if !readable && !reliable {
        return false;
      }
      var target := Read();
      if !replace {
        var has := FindsEntry(target, name);
        if has {
          return false;
        }
      }
      target := RemoveEntry(target, name);
      target := AppendEntry(target, source, name);
      if setCurrent {
        target := target.(current := name);
      }
      target := Normalized(target);
      ok := WriteAtomic(target);
    }

    method Unmerge(name: string) returns (changed: bool, ok: bool)
      modifies this
      ensures ok && old(content).Some? ==> Unmerged(old(Read()), name) == Ok(Read())
      ensures ok ==> (changed <==> old(content).Some? && Changes(old(Read()), name))
      ensures !ok || old(content).None? ==> content == old(content)
      ensures old(content).None? ==> ok
      ensures reliable && old(content).Some? ==> (ok <==> Unmerged(old(Read()), name).Ok?)
    {
      if content.None? {
        return false, true;
      }
      var readable: bool := *;
      if !readable && !reliable {
        return false, false;
      }
      var d := Read();
      var referenced := EntryReferencedByOtherContext(d, name);
      if referenced {
        return false, false;
      }
      var next := RemoveEntry(d, name);
      if d.current == name {
        next := next.(current := "");
      }
      ChangesWhen(d, name);
      changed := d != next;
      if !changed {
        return false, true;
      }
      ok := WriteAtomic(Normalized(next));
    }
  }

  /** What an unmerge has to do something about. */
  predicate Changes(d: Document, name: string) {
    HasEntry(d, name) || (d.current == name && name != "")
  }

  lemma ChangesWhen(d: Document, name: string)
    ensures Changes(d, name) <==> Removed(d, name).(current := if d.current == name then "" else d.current) != d
  {
    NoneNamed(d.clusters, name);
    NoneNamed(d.users, name);
    NoneNamed(d.contexts, name);
  }

  // ---- What is refused ----

  /** The entry at `i`, and no other, has the name. */
  predicate OnlyAt<T>(entries: seq<Entry<T>>, name: string, i: nat) {
    forall j :: 0 <= j < |entries| ==> (entries[j].name == name <==> j == i)
  }

  ghost predicate OneOf<T>(entries: seq<Entry<T>>, name: string) {
    exists i: nat :: i < |entries| && OnlyAt(entries, name, i)
  }

  lemma {:induction false} OneOfIff<T>(entries: seq<Entry<T>>, name: string)
    ensures OneOf(entries, name) <==> |Named(entries, name)| == 1
  {
    if entries != [] {
      var k := |entries| - 1;
      var init := entries[..k];
      OneOfIff(init, name);
      NoneNamed(init, name);
      hide OneOf, HasName;
      OneMoreNamed(entries, name);
    }
  }

  lemma OneMoreNamed<T>(entries: seq<Entry<T>>, name: string)
    requires entries != []
    ensures var k := |entries| - 1;
            OneOf(entries, name) <==>
              if entries[k].name == name then !HasName(entries[..k], name) else OneOf(entries[..k], name)
  {
    var k := |entries| - 1;
    var init := entries[..k];
    if entries[k].name == name {
      if !HasName(init, name) {
        assert forall j :: 0 <= j < k ==> init[j] in init && init[j] == entries[j];
        assert OnlyAt(entries, name, k);
      }
      if OneOf(entries, name) {
        var i: nat :| i < |entries| && OnlyAt(entries, name, i);
        assert i == k;
        assert forall j :: 0 <= j < k ==> init[j].name != name;
      }
    } else {
      if OneOf(init, name) {
        var i: nat :| i < |init| && OnlyAt(init, name, i);
        assert forall j :: 0 <= j < k ==> (entries[j].name == name <==> init[j].name == name);
        assert OnlyAt(entries, name, i);
      }
      if OneOf(entries, name) {
        var i: nat :| i < |entries| && OnlyAt(entries, name, i);
        assert entries[i].name == name;
        assert OnlyAt(init, name, i);
      }
    }
  }

  /** A merge is refused exactly when the source has not just one cluster, user and context of the name,
      or the target has one already and is not to be overwritten. */
  lemma MergeRefusedIff(target: Document, source: Document, name: string, replace: bool, setCurrent: bool)
    ensures Merged(target, source, name, replace, setCurrent).Failed? <==>
              || !(OneOf(source.clusters, name) && OneOf(source.users, name) && OneOf(source.contexts, name))
              || (!replace && (|| (exists e :: e in target.clusters && e.name == name)
                               || (exists e :: e in target.users && e.name == name)
                               || (exists e :: e in target.contexts && e.name == name)))
  {
    OneOfIff(source.clusters, name);
    OneOfIff(source.users, name);
    OneOfIff(source.contexts, name);
    hide OneOf, Pick;
  }

  /** An unmerge is refused exactly when a context of another name uses the cluster or the user. */
  lemma UnmergeRefusedIff(d: Document, name: string)
    ensures Unmerged(d, name).Failed? <==>
              exists c :: c in d.contexts && c.name != name && (c.body.cluster == name || c.body.user == name)
  {
  }

  // ---- Merge and unmerge together ----

  /** Removing undoes appending on a document without such entries, and only there. */
  lemma RemoveAfterAppend(d: Document, source: Document, name: string)
    ensures Removed(Appended(Removed(d, name), source, name), name) == Removed(d, name)
    ensures Removed(d, name) == d <==> !HasEntry(d, name)
  {
    OthersAfter(d.clusters, source.clusters, name);
    OthersAfter(d.users, source.users, name);
    OthersAfter(d.contexts, source.contexts, name);
  }

  lemma OthersAfter<T>(entries: seq<Entry<T>>, added: seq<Entry<T>>, name: string)
    ensures Others(Others(entries, name) + Named(added, name), name) == Others(entries, name)
    ensures Others(entries, name) == entries <==> !HasName(entries, name)
  {
    hide Pick;
    var rest, picked := Pick(entries, name, false), Pick(added, name, true);
    PickOfBoth(rest, picked, name, false);
    PickedAreThose(entries, name, false);
    PickedAreThose(added, name, true);
    PickOfAll(rest, name, false);
    PickOfNone(picked, name, false);
    NoneNamed(entries, name);
  }

  /** The document a merge makes is referenced by the contexts that referenced it before. */
  lemma ReferencedAfterMerge(target: Document, source: Document, name: string, replace: bool, setCurrent: bool)
    requires Merged(target, source, name, replace, setCurrent).Ok?
    ensures Referenced(Merged(target, source, name, replace, setCurrent).value, name) <==> Referenced(target, name)
  {
    hide Pick;
    PickedAreThose(target.contexts, name, false);
    PickedAreThose(source.contexts, name, true);
    var merged := Merged(target, source, name, replace, setCurrent).value;
    assert merged.contexts == Others(target.contexts, name) + Named(source.contexts, name);
    if Referenced(target, name) {
      var c :| c in target.contexts && RefersTo(c, name);
      assert c in merged.contexts;
    }
  }

  /** An unmerge takes a merge back, header defaults aside, exactly when the name was neither present
      nor referenced, and the current context neither was the name nor got lost to it. */
  lemma UnmergeUndoesMergeIff(target: Document, source: Document, name: string, replace: bool, setCurrent: bool)
    requires Merged(target, source, name, replace, setCurrent).Ok?
    ensures Unmerged(Merged(target, source, name, replace, setCurrent).value, name) == Ok(Normalized(target))
            <==> !HasEntry(target, name) && !Referenced(target, name)
                 && (target.current == "" || (target.current != name && !setCurrent))
  {
    hide Referenced, HasEntry, Appended, Pick;
    var merged := Merged(target, source, name, replace, setCurrent).value;
    ReferencedAfterMerge(target, source, name, replace, setCurrent);
    RemoveAfterAppend(target, source, name);
    MergedChanges(target, source, name, replace, setCurrent);
    if !Referenced(target, name) {
      UnmergedShape(target, source, name, replace, setCurrent);
    }
  }

  lemma MergedChanges(target: Document, source: Document, name: string, replace: bool, setCurrent: bool)
    requires Merged(target, source, name, replace, setCurrent).Ok?
    ensures HasEntry(Merged(target, source, name, replace, setCurrent).value, name)
  {
    var merged := Merged(target, source, name, replace, setCurrent).value;
    hide Pick;
    PickedAreThose(source.clusters, name, true);
    var e := Named(source.clusters, name)[0];
    assert merged.clusters == Others(target.clusters, name) + Named(source.clusters, name);
    assert e in merged.clusters && e.name == name;
  }

  lemma UnmergedShape(target: Document, source: Document, name: string, replace: bool, setCurrent: bool)
    requires Merged(target, source, name, replace, setCurrent).Ok? && !Referenced(target, name)
    ensures var current := if setCurrent then name else target.current;
            Unmerged(Merged(target, source, name, replace, setCurrent).value, name)
            == Ok(Normalized(Removed(target, name).(current := if current == name then "" else current)))
  {
    hide Referenced, HasEntry;
    var merged := Merged(target, source, name, replace, setCurrent).value;
    ReferencedAfterMerge(target, source, name, replace, setCurrent);
    RemoveAfterAppend(target, source, name);
    MergedChanges(target, source, name, replace, setCurrent);
    ChangesWhen(merged, name);
  }

  /** A merge puts the source's entries of the name in place of the target's, and makes the name the
      current context when it was asked to; the header is filled in. */
  lemma MergeBringsEntry(target: Document, source: Document, name: string, replace: bool, setCurrent: bool)
    requires Merged(target, source, name, replace, setCurrent).Ok?
    ensures var r := Merged(target, source, name, replace, setCurrent).value;
            && SameEntries(r, source, name) && ExactlyOne(r, name)
            && r.current == (if setCurrent then name else target.current)
            && r.apiVersion == (if target.apiVersion == "" then "v1" else target.apiVersion)
            && r.kind == (if target.kind == "" then "Config" else target.kind)
  {
    NamedAfter(target.clusters, source.clusters, name);
    NamedAfter(target.users, source.users, name);
    NamedAfter(target.contexts, source.contexts, name);
  }

  lemma NamedAfter<T>(entries: seq<Entry<T>>, added: seq<Entry<T>>, name: string)
    ensures Named(Others(entries, name) + Named(added, name), name) == Named(added, name)
  {
    hide Pick;
    PickOfBoth(Others(entries, name), Named(added, name), name, true);
    PickedAreThose(entries, name, false);
    PickedAreThose(added, name, true);
    PickOfNone(Others(entries, name), name, true);
    PickOfAll(Named(added, name), name, true);
  }

  /** An unmerge leaves nothing of that name, not even as the current context. */
  lemma UnmergeDropsEntry(d: Document, name: string)
    requires Unmerged(d, name).Ok?
    ensures var r := Unmerged(d, name).value;
            && !HasEntry(r, name) && (name != "" ==> r.current != name)
            && (d.current != name ==> r.current == d.current)
            && (r != d ==>
                  && r.apiVersion == (if d.apiVersion == "" then "v1" else d.apiVersion)
                  && r.kind == (if d.kind == "" then "Config" else d.kind))
  {
    hide Pick;
    var r := Unmerged(d, name).value;
    NoneLeft(d.clusters, name);
    NoneLeft(d.users, name);
    NoneLeft(d.contexts, name);
  }

  lemma NoneLeft<T>(entries: seq<Entry<T>>, name: string)
    ensures !HasName(Others(entries, name), name)
  {
    hide Pick;
    PickedAreThose(entries, name, false);
  }

  // ---- What every sequence of merges and unmerges keeps ----

  /** Merging or unmerging `name` leaves the entries of every other name as they were. */
  lemma OtherNamesKept(d: Document, source: Document, name: string, replace: bool, setCurrent: bool, n: string)
    requires n != name
    ensures var r := Merged(d, source, name, replace, setCurrent); r.Ok? ==> SameEntries(r.value, d, n) && SameRest(r.value, d)
    ensures var r := Unmerged(d, name); r.Ok? ==> SameEntries(r.value, d, n) && SameRest(r.value, d)
  {
    OthersThenNamed(d.clusters, source.clusters, name, n);
    OthersThenNamed(d.users, source.users, name, n);
    OthersThenNamed(d.contexts, source.contexts, name, n);
  }

  predicate SameEntries(a: Document, b: Document, n: string) {
    Named(a.clusters, n) == Named(b.clusters, n) && Named(a.users, n) == Named(b.users, n) && Named(a.contexts, n) == Named(b.contexts, n)
  }

  predicate SameRest(a: Document, b: Document) {
    && a.other == b.other
    && (b.apiVersion != "" ==> a.apiVersion == b.apiVersion) && (b.kind != "" ==> a.kind == b.kind)
  }

  lemma OthersThenNamed<T>(entries: seq<Entry<T>>, added: seq<Entry<T>>, name: string, n: string)
    requires n != name
    ensures Named(Others(entries, name), n) == Named(entries, n)
    ensures Named(Others(entries, name) + Named(added, name), n) == Named(entries, n)
  {
    hide Pick;
    OthersKeepNamed(entries, name, n);
    PickOfBoth(Others(entries, name), Named(added, name), n, true);
    PickedAreThose(added, name, true);
    PickOfNone(Named(added, name), n, true);
  }

  /** Every context names a cluster and a user of the document, and the current context exists. */
  ghost predicate Resolves(d: Document) {
    && (forall c :: c in d.contexts ==> HasName(d.clusters, c.body.cluster) && HasName(d.users, c.body.user))
    && (d.current == "" || HasName(d.contexts, d.current))
  }

  /** The context a source brings along names the cluster and the user it brings along. */
  predicate SelfConsistent(source: Document, name: string) {
    forall c :: c in source.contexts && c.name == name ==> c.body.cluster == name && c.body.user == name
  }

  lemma StillNamed<T>(entries: seq<Entry<T>>, added: seq<Entry<T>>, name: string, n: string)
    ensures HasName(entries, n) && n != name ==> HasName(Others(entries, name), n)
    ensures HasName(entries, n) && n != name ==> HasName(Others(entries, name) + Named(added, name), n)
    ensures |Named(added, name)| == 1 ==> HasName(Others(entries, name) + Named(added, name), name)
  {
    hide Pick;
    PickedAreThose(entries, name, false);
    PickedAreThose(added, name, true);
    if HasName(entries, n) && n != name {
      var e :| e in entries && e.name == n;
      assert e in Others(entries, name);
      assert e in Others(entries, name) + Named(added, name);
    }
    if |Named(added, name)| == 1 {
      assert Named(added, name)[0] in Others(entries, name) + Named(added, name);
    }
  }

  lemma MergeKeepsResolves(d: Document, source: Document, name: string, replace: bool, setCurrent: bool)
    requires Resolves(d) && SelfConsistent(source, name) && Merged(d, source, name, replace, setCurrent).Ok?
    ensures Resolves(Merged(d, source, name, replace, setCurrent).value)
  {
    hide Pick, HasName;
    var r := Merged(d, source, name, replace, setCurrent).value;
    PickedAreThose(d.contexts, name, false);
    PickedAreThose(source.contexts, name, true);
    forall c | c in r.contexts
      ensures HasName(r.clusters, c.body.cluster) && HasName(r.users, c.body.user)
    {
      assert c in Others(d.contexts, name) || c in Named(source.contexts, name);
      StillNamed(d.clusters, source.clusters, name, c.body.cluster);
      StillNamed(d.users, source.users, name, c.body.user);
    }
    StillNamed(d.contexts, source.contexts, name, r.current);
  }

  lemma UnmergeKeepsResolves(d: Document, name: string)
    requires Resolves(d) && Unmerged(d, name).Ok?
    ensures Resolves(Unmerged(d, name).value)
  {
    hide Pick, HasName;
    var r := Unmerged(d, name).value;
    PickedAreThose(d.contexts, name, false);
    forall c | c in r.contexts && r != d
      ensures HasName(r.clusters, c.body.cluster) && HasName(r.users, c.body.user)
    {
      assert c in Others(d.contexts, name) && !RefersTo(c, name);
      StillNamed(d.clusters, [], name, c.body.cluster);
      StillNamed(d.users, [], name, c.body.user);
    }
    StillNamed(d.contexts, [], name, d.current);
  }

  datatype Op =
    | Merge(source: Document, name: string, replace: bool, setCurrent: bool)
    | Unmerge(name: string)

  function Apply(d: Document, op: Op): Result<Document> {
    match op
    case Merge(source, name, replace, setCurrent) => Merged(d, source, name, replace, setCurrent)
    case Unmerge(name) => Unmerged(d, name)
  }

  /** The operations one after the other; a refused one changes nothing. */
  function ApplyAll(d: Document, ops: seq<Op>): Document {
    if ops == [] then d
    else
      var before := ApplyAll(d, ops[..|ops| - 1]);
      var r := Apply(before, ops[|ops| - 1]);
      if r.Ok? then r.value else before
  }

  /** If every reference resolved before, every reference resolves after any merges of sources that
      are consistent in themselves and any unmerges, in any order. */
  lemma {:induction false} AlwaysResolves(d: Document, ops: seq<Op>)
    requires Resolves(d)
    requires forall op :: op in ops && op.Merge? ==> SelfConsistent(op.source, op.name)
    ensures Resolves(ApplyAll(d, ops))
  {
    hide Resolves, SelfConsistent, Merged, Unmerged;
    if ops != [] {
      var last := ops[|ops| - 1];
      AlwaysResolves(d, ops[..|ops| - 1]);
      var before := ApplyAll(d, ops[..|ops| - 1]);
      if Apply(before, last).Ok? {
        match last
        case Merge(source, name, replace, setCurrent) => MergeKeepsResolves(before, source, name, replace, setCurrent);
        case Unmerge(name) => UnmergeKeepsResolves(before, name);
      }
    }
  }
}
