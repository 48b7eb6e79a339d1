// The kernel command line of a Cloud Hypervisor VM. It is brought into a normal form when the VM is
// created from an image and once more when it is created from a snapshot of such a VM.
module KernelCommandLine {
  import opened FieldLists
  import opened Sequences

  /** What strings.Fields and strings.TrimSpace take for white space. */
  predicate IsSpace(c: char) {
    || c == ' ' || '\t' <= c <= '\r' || c == '\U{85}' || c == '\U{A0}' || c == '\U{1680}' || '\U{2000}' <= c <= '\U{200A}'
    || c == '\U{2028}' || c == '\U{2029}' || c == '\U{202F}' || c == '\U{205F}' || c == '\U{3000}'
  }

  /** One by one: the code points with the Unicode property White_Space. */
  lemma WhiteSpace(c: char)
    ensures IsSpace(c) <==>
              || c == '\U{9}' || c == '\U{A}' || c == '\U{B}' || c == '\U{C}' || c == '\U{D}' || c == '\U{20}'
              || c == '\U{85}' || c == '\U{A0}' || c == '\U{1680}' || c == '\U{2000}' || c == '\U{2001}' || c == '\U{2002}'
              || c == '\U{2003}' || c == '\U{2004}' || c == '\U{2005}' || c == '\U{2006}' || c == '\U{2007}' || c == '\U{2008}'
              || c == '\U{2009}' || c == '\U{200A}' || c == '\U{2028}' || c == '\U{2029}' || c == '\U{202F}' || c == '\U{205F}' || c == '\U{3000}'
  {
  }

  const DEFAULT := "console=ttyS0 root=/dev/vda1 rw"
  const HEAD: seq<string> := ["console=ttyS0", "root=/dev/vda1", "rw", "spind.ch_net=1", "kido.ch_net=1"]
  const MODULES := "modules="
  const DRIVER := "virtio_net"

  // ---- Comma lists ----

  function SplitFrom(s: string, current: string): seq<string>
    decreases |s|
  {
    if s == "" then [current]
    else if s[0] == ',' then [current] + SplitFrom(s[1..], "")
    else SplitFrom(s[1..], current + [s[0]])
  }

  function Split(s: string): seq<string> { SplitFrom(s, "") }

  lemma {:induction false} SplitAppend(s: string, current: string, v: string)
    requires ',' !in v
    ensures SplitFrom(s + "," + v, current) == SplitFrom(s, current) + [v]
    decreases |s|
  {
    if s == "" {
      assert (s + "," + v)[1..] == v && "" + v == v;
      SplitPlain(v, "");
    } else {
      assert (s + "," + v)[1..] == s[1..] + "," + v;
      if s[0] == ',' {
        SplitAppend(s[1..], "", v);
      } else {
        SplitAppend(s[1..], current + [s[0]], v);
      }
    }
  }

  lemma {:induction false} SplitPlain(v: string, current: string)
    requires ',' !in v
    ensures SplitFrom(v, current) == [current + v]
    decreases |v|
  {
    if v == "" {
      assert current + v == current;
    } else {
      SplitPlain(v[1..], current + [v[0]]);
      assert current + [v[0]] + v[1..] == current + v;
    }
  }

  /** Where the first equals sign is; the length if there is none. */
  function EqualsAt(field: string): (k: nat)
    ensures k <= |field| && (k < |field| ==> field[k] == '=') && forall i :: 0 <= i < k ==> field[i] != '='
  {
    if field == "" || field[0] == '=' then 0 else 1 + EqualsAt(field[1..])
  }

  function ValuesOf(field: string): string {
    var k := EqualsAt(field);
    if k < |field| then field[k + 1..] else ""
  }

  predicate Lists(field: string, value: string) { value in Split(ValuesOf(field)) }

  function EnsureValue(field: string, value: string): string {
    var k := EqualsAt(field);
    if k == |field| || Lists(field, value) then field
    else if ValuesOf(field) == "" then field[..k] + "=" + value
    else field[..k] + "=" + ValuesOf(field) + "," + value
  }

  method EnsureCommaListValue(field: string, value: string) returns (r: string)
    ensures r == EnsureValue(field, value)
  {
    var k := EqualsAt(field);
    if k == |field| {
      return field;
    }
    var values := ValuesOf(field);
    var existing := Split(values);
    for i := 0 to |existing|
      invariant value !in existing[..i]
    {
      if existing[i] == value {
        return field;
      }
    }
    assert existing[..|existing|] == existing;
    r := if values == "" then field[..k] + "=" + value else field[..k] + "=" + values + "," + value;
  }

  lemma EqualsBehind(prefix: string, values: string)
    requires '=' !in prefix
    ensures EqualsAt(prefix + "=" + values) == |prefix| && ValuesOf(prefix + "=" + values) == values
  {
    var field := prefix + "=" + values;
    assert field[|prefix|] == '=';
    assert forall i :: 0 <= i < |prefix| ==> field[i] == prefix[i];
  }

  /** The value is listed afterwards, and then there is nothing more to do. */
  lemma ValueIsEnsured(field: string, value: string)
    requires '=' in field && ',' !in value
    ensures var r := EnsureValue(field, value);
            && Lists(r, value) && EnsureValue(r, value) == r
            && r[..EqualsAt(r)] == field[..EqualsAt(field)]
            && (Lists(field, value) <==> r == field)
  {
    hide SplitFrom, EqualsAt;
    var k := EqualsAt(field);
    if k < |field| && !Lists(field, value) {
      var values := ValuesOf(field);
      if values == "" {
        EqualsBehind(field[..k], value);
        LastIsListed("", value);
      } else {
        EqualsBehind(field[..k], values + "," + value);
        assert field[..k] + "=" + values + "," + value == field[..k] + "=" + (values + "," + value);
        LastIsListed(values, value);
      }
      hide Split;
    }
  }

  lemma LastIsListed(values: string, value: string)
    requires ',' !in value
    ensures value in Split(if values == "" then value else values + "," + value)
  {
    if values == "" {
      SplitPlain(value, "");
      assert "" + value == value;
    } else {
      SplitAppend(values, "", value);
      hide SplitFrom;
    }
  }

  // ---- The normal form ----

  /** Set by the normal form itself. */
  predicate Dropped(field: string) {
    || "console=" <= field || "root=" <= field || field == "rw" || field == "ro"
    || "spind.ch_net=" <= field || "kido.ch_net=" <= field
  }

  function Rewrite(field: string): string { if MODULES <= field then EnsureValue(field, DRIVER) else field }

  function Kept(fields: seq<string>): seq<string> {
    if fields == [] then []
    else
      var k := |fields| - 1;
      Kept(fields[..k]) + if Dropped(fields[k]) then [] else [Rewrite(fields[k])]
  }

  predicate HasModules(fields: seq<string>) { exists f :: f in fields && !Dropped(f) && MODULES <= f }

  lemma OneMoreField(fields: seq<string>, i: nat)
    requires i < |fields|
    ensures Kept(fields[..i + 1]) == Kept(fields[..i]) + if Dropped(fields[i]) then [] else [Rewrite(fields[i])]
    ensures HasModules(fields[..i + 1]) <==> HasModules(fields[..i]) || (!Dropped(fields[i]) && MODULES <= fields[i])
  {
    hide Dropped, Rewrite, MODULES;
    assert fields[..i + 1] == fields[..i] + [fields[i]];
    assert fields[..i + 1][..i] == fields[..i];
  }

  lemma NothingKept()
    ensures Kept([]) == [] && !HasModules([])
  {
  }

  function Normalize(fields: seq<string>): seq<string> {
    HEAD + Kept(fields) + if HasModules(fields) then [] else [MODULES + DRIVER]
  }

  function CommandLine(imageType: string, text: string): string {
    if imageType == "microvm-nix" then Trim(text, IsSpace)
    else if |Fields(text, IsSpace)| == 0 then DEFAULT
    else Join(Normalize(Fields(text, IsSpace)), ' ')
  }

  method CloudHypervisorKernelCommandLine(imageType: string, text: string) returns (r: string)
    ensures r == CommandLine(imageType, text)
  {
    hide Dropped, Kept, HasModules, HEAD, EnsureValue, MODULES;
    if imageType == "microvm-nix" {
      return Trim(text, IsSpace);
    }
    var fields := Fields(text, IsSpace);
    if |fields| == 0 {
      return DEFAULT;
    }
    var filtered := HEAD;
    var hasModules := false;
    NothingKept();
    for i := 0 to |fields|
      invariant filtered == HEAD + Kept(fields[..i])
      invariant hasModules <==> HasModules(fields[..i])
    {
      OneMoreField(fields, i);
      if Dropped(fields[i]) {
        continue;
      }
      var field := fields[i];
      if MODULES <= field {
        field := EnsureCommaListValue(field, DRIVER);
        hasModules := true;
      }
      filtered := filtered + [field];
    }
    assert fields[..|fields|] == fields;
    if !hasModules {
      filtered := filtered + [MODULES + DRIVER];
    }
    assert filtered == Normalize(fields);
    r := Join(filtered, ' ');
  }

  // ---- One field ----

  lemma ModulesHasEquals(field: string)
    requires MODULES <= field
    ensures '=' in field && EqualsAt(field) == 7
  {
    EqualsBehind("modules", field[8..]);
    assert field == "modules" + "=" + field[8..];
  }

  lemma RewriteTwice(field: string)
    ensures Rewrite(Rewrite(field)) == Rewrite(field)
    ensures MODULES <= field ==> MODULES <= Rewrite(field) && Lists(Rewrite(field), DRIVER)
    ensures Dropped(Rewrite(field)) <==> Dropped(field)
    ensures MODULES <= field <==> MODULES <= Rewrite(field)
  {
    if MODULES <= field {
      hide Lists;
      ModulesHasEquals(field);
      ValueIsEnsured(field, DRIVER);
      var r := Rewrite(field);
      assert r[..7] == field[..7] && r[7] == '=';
      assert MODULES <= r;
    }
  }

  lemma RewriteKeepsSolid(field: string)
    requires Solid(field, IsSpace)
    ensures Solid(Rewrite(field), IsSpace)
  {
    if MODULES <= field {
      ModulesHasEquals(field);
      DriverIsSolid();
      assert field == field[..7] + "=" + ValuesOf(field);
      hide IsSpace, Solid, Lists, ValuesOf;
      if Rewrite(field) != field {
        assert field[..7] + "=" + ValuesOf(field) + "," + DRIVER == field + "," + DRIVER;
        assert ValuesOf(field) == "" ==> field[..7] + "=" + DRIVER == field + "" + DRIVER;
        SolidBehind(field, "");
        SolidBehind(field, ",");
      }
    }
  }

  lemma SolidBehind(field: string, separator: string)
    requires Solid(field, IsSpace) && Solid(DRIVER, IsSpace) && (separator == "" || separator == ",")
    ensures Solid(field + separator + DRIVER, IsSpace)
  {
    hide DRIVER;
  }

  lemma DriverIsSolid()
    ensures Solid(DRIVER, IsSpace)
  {
    forall i | 0 <= i < |DRIVER| ensures !IsSpace(DRIVER[i]) {
    }
  }

  // ---- All fields ----

  lemma OneMoreKept(fields: seq<string>, f: string)
    ensures Kept(fields + [f]) == Kept(fields) + if Dropped(f) then [] else [Rewrite(f)]
    ensures HasModules(fields + [f]) <==> HasModules(fields) || (!Dropped(f) && MODULES <= f)
  {
    hide Dropped, Rewrite, MODULES;
    assert (fields + [f])[..|fields|] == fields;
  }

  lemma {:induction false} KeptOfBoth(a: seq<string>, b: seq<string>)
    ensures Kept(a + b) == Kept(a) + Kept(b)
    ensures HasModules(a + b) <==> HasModules(a) || HasModules(b)
  {
    if b == [] {
      assert a + b == a;
    } else {
      hide Kept, HasModules, Dropped, Rewrite, MODULES;
      var init, f := b[..|b| - 1], b[|b| - 1];
      Unsnoc(b);
      KeptOfBoth(a, init);
      OneMoreKept(init, f);
      OneMoreKept(a + init, f);
      Assoc(a, init, [f]);
      Assoc(Kept(a), Kept(init), if Dropped(f) then [] else [Rewrite(f)]);
    }
  }

  lemma KeptOne(f: string)
    requires !Dropped(f) && Rewrite(f) == f
    ensures Kept([f]) == [f] && (HasModules([f]) <==> MODULES <= f)
  {
    hide MODULES, DRIVER, Dropped, Rewrite;
    OneMoreField([f], 0);
    NothingKept();
    assert [f][..1] == [f];
  }

  lemma {:induction false} KeptTwice(fields: seq<string>)
    ensures Kept(Kept(fields)) == Kept(fields)
    ensures HasModules(Kept(fields)) <==> HasModules(fields)
  {
    hide Dropped, Rewrite, MODULES, DRIVER, HasModules;
    if fields == [] {
    } else {
      var k := |fields| - 1;
      KeptTwice(fields[..k]);
      OneMoreField(fields, k);
      assert fields[..k + 1] == fields;
      if !Dropped(fields[k]) {
        RewriteTwice(fields[k]);
        KeptOne(Rewrite(fields[k]));
        KeptOfBoth(Kept(fields[..k]), [Rewrite(fields[k])]);
      } else {
        assert Kept(fields) == Kept(fields[..k]);
      }
    }
  }

  lemma {:induction false} KeptAreListed(fields: seq<string>)
    ensures forall f :: f in Kept(fields) ==> !Dropped(f) && (MODULES <= f ==> Lists(f, DRIVER))
  {
    hide Dropped, Rewrite, MODULES, Lists;
    if fields != [] {
      KeptAreListed(fields[..|fields| - 1]);
      RewriteTwice(fields[|fields| - 1]);
    }
  }

  lemma HeadIsDropped()
    ensures Kept(HEAD) == [] && !HasModules(HEAD)
  {
    NoneKept(HEAD);
  }

  lemma {:induction false} NoneKept(fields: seq<string>)
    requires forall f :: f in fields ==> Dropped(f)
    ensures Kept(fields) == [] && !HasModules(fields)
  {
    hide Dropped;
    if fields != [] {
      NoneKept(fields[..|fields| - 1]);
    }
  }

  lemma DriverIsListed()
    ensures Lists(MODULES + DRIVER, DRIVER)
  {
    hide EqualsAt;
    EqualsBehind("modules", DRIVER);
    SplitPlain(DRIVER, "");
    assert MODULES + DRIVER == "modules" + "=" + DRIVER;
    assert "" + DRIVER == DRIVER;
  }

  lemma DriverField()
    ensures var f := MODULES + DRIVER; MODULES <= f && !Dropped(f) && Rewrite(f) == f
  {
    hide Lists, EqualsAt;
    DriverIsListed();
    assert (MODULES + DRIVER)[0] == 'm';
  }

  lemma TailIsKept()
    ensures Kept([MODULES + DRIVER]) == [MODULES + DRIVER] && HasModules([MODULES + DRIVER])
  {
    hide MODULES, DRIVER, Dropped, Rewrite;
    DriverField();
    KeptOne(MODULES + DRIVER);
  }

  /** Bringing a normal form into normal form changes nothing. */
  lemma NormalizeTwice(fields: seq<string>)
    ensures Normalize(Normalize(fields)) == Normalize(fields)
    ensures HasModules(Normalize(fields))
  {
    hide Kept, HasModules, MODULES, HEAD;
    var tail := if HasModules(fields) then [] else [MODULES + DRIVER];
    KeptTwice(fields);
    HeadIsDropped();
    TailIsKept();
    NothingKept();
    KeptOfBoth(HEAD + Kept(fields), tail);
    KeptOfBoth(HEAD, Kept(fields));
  }

  /** Every modules field of a normal form lists the driver, and there is one. */
  lemma ModulesListDriver(fields: seq<string>)
    ensures HasModules(Normalize(fields))
    ensures forall f :: f in Normalize(fields) && MODULES <= f ==> Lists(f, DRIVER)
  {
    hide Lists, DRIVER, Kept, HasModules;
    NormalizeTwice(fields);
    KeptAreListed(fields);
    DriverIsListed();
    forall f | f in Normalize(fields) && MODULES <= f ensures Lists(f, DRIVER) {
      assert f[0] == 'm';
    }
  }

  /** The field sets this parameter: it is what stands before the first equals sign. */
  predicate Sets(field: string, key: string) {
    EqualsAt(field) < |field| && field[..EqualsAt(field)] == key
  }

  /** What the normal form decides itself. */
  predicate Own(field: string) {
    || Sets(field, "console") || Sets(field, "root") || Sets(field, "spind.ch_net") || Sets(field, "kido.ch_net")
    || Sets(field, "modules") || field == "rw" || field == "ro"
  }

  lemma SetsIff(field: string, key: string)
    requires '=' !in key
    ensures Sets(field, key) <==> key + "=" <= field
  {
    if key + "=" <= field {
      EqualsBehind(key, field[|key| + 1..]);
      assert field == key + "=" + field[|key| + 1..];
    }
    if Sets(field, key) {
      assert field[..|key| + 1] == key + "=";
    }
  }

  lemma OwnIff(field: string)
    ensures Own(field) <==> Dropped(field) || MODULES <= field
    ensures Sets(field, "modules") <==> MODULES <= field
  {
    SetsIff(field, "console");
    SetsIff(field, "root");
    SetsIff(field, "spind.ch_net");
    SetsIff(field, "kido.ch_net");
    SetsIff(field, "modules");
    assert "console" + "=" == "console=" && "root" + "=" == "root=" && "modules" + "=" == MODULES;
    assert "spind.ch_net" + "=" == "spind.ch_net=" && "kido.ch_net" + "=" == "kido.ch_net=";
    hide Sets;
  }

  /** The settings of a normal form: the fixed ones in front, and behind them nothing that could
      override one; of its own parameters only `modules` is left, it is there, and lists the driver. */
  lemma NormalFormSets(fields: seq<string>)
    ensures var n := Normalize(fields);
            && 5 <= |n| && n[..5] == ["console=ttyS0", "root=/dev/vda1", "rw", "spind.ch_net=1", "kido.ch_net=1"]
            && (forall i :: 5 <= i < |n| && Own(n[i]) ==> Sets(n[i], "modules") && Lists(n[i], "virtio_net"))
            && exists i :: 5 <= i < |n| && Sets(n[i], "modules")
  {
    var n := Normalize(fields);
    var tail := if HasModules(fields) then [] else [MODULES + DRIVER];
    assert n == HEAD + (Kept(fields) + tail);
    KeptAreListed(fields);
    DriverField();
    ModulesListDriver(fields);
    assert "virtio_net" == DRIVER;
    var more := Kept(fields) + tail;
    assert n[..5] == HEAD && n[5..] == more;
    hide Dropped, Own, Sets, Lists, MODULES, DRIVER, HEAD, Kept;
    forall i | 5 <= i < |n| && Own(n[i]) ensures Sets(n[i], "modules") && Lists(n[i], "virtio_net") {
      OwnIff(n[i]);
      assert n[i] == more[i - 5] && n[i] in more && n[i] in n;
    }
    ModulesAreBehind(fields);
  }

  lemma ModulesAreBehind(fields: seq<string>)
    ensures var n := Normalize(fields); exists i :: 5 <= i < |n| && Sets(n[i], "modules")
  {
    hide Sets, Lists;
    var n := Normalize(fields);
    NormalizeTwice(fields);
    var f :| f in n && !Dropped(f) && MODULES <= f;
    var i :| 0 <= i < |n| && n[i] == f;
    HeadIsDropped();
    assert i < 5 ==> f in HEAD;
    assert i < 5 ==> !HasModules(HEAD);
    OwnIff(f);
  }

  /** The fields that the normal form does not decide. */
  function Plain(fields: seq<string>): seq<string> {
    if fields == [] then []
    else
      var k := |fields| - 1;
      Plain(fields[..k]) + if Own(fields[k]) then [] else [fields[k]]
  }

  lemma OneMorePlain(fields: seq<string>, f: string)
    ensures Plain(fields + [f]) == Plain(fields) + if Own(f) then [] else [f]
  {
    hide Own;
    assert (fields + [f])[..|fields|] == fields;
  }

  lemma {:induction false} PlainOfBoth(a: seq<string>, b: seq<string>)
    ensures Plain(a + b) == Plain(a) + Plain(b)
  {
    if b == [] {
      assert a + b == a;
    } else {
      hide Plain, Own;
      var init, f := b[..|b| - 1], b[|b| - 1];
      Unsnoc(b);
      PlainOfBoth(a, init);
      OneMorePlain(init, f);
      OneMorePlain(a + init, f);
      Assoc(a, init, [f]);
      Assoc(Plain(a), Plain(init), if Own(f) then [] else [f]);
    }
  }

  lemma {:induction false} PlainOfKept(fields: seq<string>)
    ensures Plain(Kept(fields)) == Plain(fields)
  {
    hide Dropped, MODULES, Own;
    if fields != [] {
      var k := |fields| - 1;
      OwnIff(fields[k]);
      OwnIff(Rewrite(fields[k]));
      PlainOfKept(fields[..k]);
      var last := if Dropped(fields[k]) then [] else [Rewrite(fields[k])];
      PlainOfBoth(Kept(fields[..k]), last);
      RewriteTwice(fields[k]);
      assert last[..0] == [];
    }
  }

  lemma {:induction false} PlainOfDropped(fields: seq<string>)
    requires forall f :: f in fields ==> Dropped(f) || MODULES <= f
    ensures Plain(fields) == []
  {
    hide Dropped, MODULES, Own;
    if fields != [] {
      OwnIff(fields[|fields| - 1]);
      PlainOfDropped(fields[..|fields| - 1]);
    }
  }

  /** All other fields are kept as they are and in their order. */
  lemma OtherFieldsKept(fields: seq<string>)
    ensures Plain(Normalize(fields)) == Plain(fields)
  {
    var tail := if HasModules(fields) then [] else [MODULES + DRIVER];
    PlainOfKept(fields);
    PlainOfDropped(HEAD);
    PlainOfDropped(tail);
    hide Kept, HasModules, MODULES, HEAD, Plain;
    PlainOfBoth(HEAD + Kept(fields), tail);
    PlainOfBoth(HEAD, Kept(fields));
  }

  // ---- The text ----

  lemma {:induction false} KeptIsSolid(fields: seq<string>)
    requires AllSolid(fields, IsSpace)
    ensures AllSolid(Kept(fields), IsSpace)
  {
    hide Dropped, Rewrite, Solid;
    if fields != [] {
      KeptIsSolid(fields[..|fields| - 1]);
      RewriteKeepsSolid(fields[|fields| - 1]);
    }
  }

  lemma HeadIsSolid()
    ensures AllSolid(HEAD, IsSpace)
  {
    VisibleIsSolid("console=ttyS0");
    VisibleIsSolid("root=/dev/vda1");
    VisibleIsSolid("rw");
    VisibleIsSolid("spind.ch_net=1");
    VisibleIsSolid("kido.ch_net=1");
    hide Solid;
  }

  lemma VisibleIsSolid(field: string)
    requires |field| > 0 && forall i :: 0 <= i < |field| ==> '!' <= field[i] <= '~'
    ensures Solid(field, IsSpace)
  {
  }

  lemma DriverFieldIsSolid()
    ensures Solid(MODULES + DRIVER, IsSpace)
  {
    VisibleIsSolid(MODULES + DRIVER);
  }

  lemma NormalFormIsSolid(fields: seq<string>)
    requires AllSolid(fields, IsSpace)
    ensures AllSolid(Normalize(fields), IsSpace)
  {
    KeptIsSolid(fields);
    HeadIsSolid();
    DriverFieldIsSolid();
    hide Kept, HasModules, Solid, HEAD, MODULES;
  }

  /** The fields of a normalised command line are the normal form of its fields. */
  lemma FieldsOfCommandLine(imageType: string, text: string)
    requires imageType != "microvm-nix" && |Fields(text, IsSpace)| > 0
    ensures Fields(CommandLine(imageType, text), IsSpace) == Normalize(Fields(text, IsSpace))
    ensures AllSolid(Normalize(Fields(text, IsSpace)), IsSpace)
  {
    hide Normalize, Solid, IsSpace;
    assert IsSpace(' ') by { SpaceIsSpace(); }
    FieldsAreSolid(text, IsSpace, "");
    NormalFormIsSolid(Fields(text, IsSpace));
    FieldsOfJoin(Normalize(Fields(text, IsSpace)), IsSpace, ' ');
  }

  lemma SpaceIsSpace()
    ensures IsSpace(' ')
  {
  }

  /** The second pass, through a snapshot, changes nothing exactly when there was something on the
      command line (or the image brings its own). */
  lemma SecondPassIsHarmlessIff(imageType: string, text: string)
    ensures CommandLine(imageType, CommandLine(imageType, text)) == CommandLine(imageType, text)
            <==> imageType == "microvm-nix" || |Fields(text, IsSpace)| > 0
  {
    if imageType == "microvm-nix" {
      TrimTwice(text, IsSpace);
    } else if |Fields(text, IsSpace)| > 0 {
      hide Normalize, IsSpace;
      FieldsOfCommandLine(imageType, text);
      NormalizeTwice(Fields(text, IsSpace));
      NormalFormIsLong(Fields(text, IsSpace));
    } else {
      hide Normalize, IsSpace, DEFAULT;
      DefaultIsNoNormalForm();
    }
  }

  /** A command line for which it does: none at all becomes the default, and that is no normal form. */
  lemma BlankIsNotStable()
    ensures CommandLine("", "") == "console=ttyS0 root=/dev/vda1 rw"
    ensures CommandLine("", CommandLine("", "")) != CommandLine("", "")
  {
    SecondPassIsHarmlessIff("", "");
  }

  lemma NormalFormIsLong(fields: seq<string>)
    ensures |Normalize(fields)| >= 5
  {
  }

  lemma DefaultIsNoNormalForm()
    ensures |Fields(DEFAULT, IsSpace)| > 0
    ensures Join(Normalize(Fields(DEFAULT, IsSpace)), ' ') != DEFAULT
  {
    var fields := HEAD[..3];
    HeadIsSolid();
    assert AllSolid(fields, IsSpace);
    DefaultIsJoined();
    FieldsOfJoin(fields, IsSpace, ' ');
    NormalFormIsSolid(fields);
    FieldsOfJoin(Normalize(fields), IsSpace, ' ');
    NormalFormIsLong(fields);
  }

  lemma DefaultIsJoined()
    ensures DEFAULT == Join(HEAD[..3], ' ')
  {
    var console, root, rw: string := "console=ttyS0", "root=/dev/vda1", "rw";
    assert DEFAULT == console + " " + (root + " " + rw);
    JoinThree(console, root, rw);
    assert HEAD[..3] == [console, root, rw];
  }

  lemma JoinThree(a: string, b: string, c: string)
    ensures Join([a, b, c], ' ') == a + " " + (b + " " + c)
  {
    assert [a, b, c][1..] == [b, c] && [b, c][1..] == [c];
    assert Join([c], ' ') == c;
    assert Join([b, c], ' ') == b + [' '] + c;
    assert Join([a, b, c], ' ') == a + [' '] + Join([b, c], ' ');
  }

  // ---- The authorized key ----

  function WithKey(text: string, param: string, key: string): string {
    if param == "" then text else Trim(text + " " + param + "=" + key, IsSpace)
  }

  /** With a key field appended the second pass still changes nothing, exactly when the field is none
      of those that the normal form sets or rewrites. */
  lemma KeySurvivesSecondPassIff(imageType: string, text: string, param: string, key: string)
    requires imageType != "microvm-nix" && |Fields(text, IsSpace)| > 0
    requires param != "" && Solid(param + "=" + key, IsSpace)
    ensures var first := WithKey(CommandLine(imageType, text), param, key);
            var field := param + "=" + key;
            CommandLine(imageType, first) == first <==> !Dropped(field) && Rewrite(field) == field
  {
    hide Normalize, IsSpace, Solid, Dropped, Rewrite;
    var fields, field := Normalize(Fields(text, IsSpace)), param + "=" + key;
    var both := fields + [field];
    FieldsOfCommandLine(imageType, text);
    NormalFormIsLong(Fields(text, IsSpace));
    NormalFormIsLong(both);
    KeyIsLastField(fields, param, key);
    NormalizeWithKey(Fields(text, IsSpace), field);
    if CommandLine(imageType, Join(both, ' ')) == Join(both, ' ') {
      NormalFormIsSolid(both);
      SpaceIsSpace();
      FieldsOfJoin(Normalize(both), IsSpace, ' ');
    }
  }

  lemma KeyIsLastField(fields: seq<string>, param: string, key: string)
    requires |fields| > 0 && AllSolid(fields, IsSpace) && param != "" && Solid(param + "=" + key, IsSpace)
    ensures WithKey(Join(fields, ' '), param, key) == Join(fields + [param + "=" + key], ' ')
    ensures AllSolid(fields + [param + "=" + key], IsSpace)
    ensures Fields(Join(fields + [param + "=" + key], ' '), IsSpace) == fields + [param + "=" + key]
  {
    hide IsSpace, Fields;
    var field := param + "=" + key;
    SpaceIsSpace();
    JoinOneMore(fields, field, ' ');
    JoinStartsSolid(fields, IsSpace, ' ');
    KeyIsAppended(Join(fields, ' '), param, key);
    FieldsOfJoin(fields + [field], IsSpace, ' ');
  }

  lemma KeyIsAppended(text: string, param: string, key: string)
    requires text != "" && !IsSpace(text[0]) && param != "" && Solid(param + "=" + key, IsSpace)
    ensures WithKey(text, param, key) == text + [' '] + (param + "=" + key)
  {
    hide IsSpace;
    var field := param + "=" + key;
    var s := text + " " + param + "=" + key;
    assert s == text + [' '] + field;
    assert s[|s| - 1] == field[|field| - 1];
  }

  lemma NormalizeWithKey(fields: seq<string>, field: string)
    ensures var n := Normalize(fields); Normalize(n + [field]) == n + [field] <==> !Dropped(field) && Rewrite(field) == field
  {
    hide Dropped, Rewrite, MODULES, HEAD, HasModules;
    var n := Normalize(fields);
    NormalizeTwice(fields);
    assert n == HEAD + Kept(n) + [];
    KeptOfBoth(n, [field]);
    OneMoreField([field], 0);
    NothingKept();
    assert [field][..1] == [field];
    var last := Kept([field]);
    assert last == if Dropped(field) then [] else [Rewrite(field)];
    assert Normalize(n + [field]) == n + last;
    assert (n + last)[|n|..] == last && (n + [field])[|n|..] == [field];
  }
}
