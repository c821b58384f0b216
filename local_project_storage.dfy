/** The browser-side fallback list of projects kept under one key of the
    browser's local storage: read with a default, append, delete by id, and
    the construction of a new local project record. */
module LocalProjectStorage {
  import opened Wrappers

  datatype LocalProject = LocalProject(
    id: string,
    name: string,
    description: string,
    ownerId: string,
    createdAt: string,
    updatedAt: string,
    isLocal: Option<bool>)

  /** What the storage key holds: nothing (or the empty string), text that
      does not parse, or an encoded list. */
  datatype Slot = Missing | Corrupt | Stored(projects: seq<LocalProject>)

  const StorageKey := "local_projects"

  /** The list `getLocalProjects` reads: the empty list unless a list is stored. */
  function Decoded(slot: Slot): (r: seq<LocalProject>)
    ensures slot.Stored? ==> r == slot.projects
    ensures !slot.Stored? ==> r == []
  {
    if slot.Stored? then slot.projects else []
  }

  /** `projects.filter(p => p.id !== id)`. */
  function WithoutId(ps: seq<LocalProject>, id: string): (r: seq<LocalProject>)
    ensures |r| <= |ps|
    ensures forall p :: p in r <==> p in ps && p.id != id
  {
    if ps == [] then [] else (if ps[0].id != id then [ps[0]] else []) + WithoutId(ps[1..], id)
  }

  /** Filtering a concatenation filters each part, so the kept entries stay
      in their original order. */
  lemma {:induction false} WithoutIdAppend(a: seq<LocalProject>, b: seq<LocalProject>, id: string)
    ensures WithoutId(a + b, id) == WithoutId(a, id) + WithoutId(b, id)
    decreases |a|
  {
    if a != [] {
      assert (a + b)[0] == a[0];
      assert (a + b)[1..] == a[1..] + b;
      WithoutIdAppend(a[1..], b, id);
    } else {
      assert a + b == b;
    }
  }

  /** Deleting an id no entry has changes nothing. */
  lemma {:induction false} DeleteAbsentIsNoOp(ps: seq<LocalProject>, id: string)
    requires forall i :: 0 <= i < |ps| ==> ps[i].id != id
    ensures WithoutId(ps, id) == ps
    decreases |ps|
  {
    if ps != [] {
      DeleteAbsentIsNoOp(ps[1..], id);
      assert [ps[0]] + ps[1..] == ps;
    }
  }

  /** Deleting twice is deleting once. */
  lemma DeleteIsIdempotent(ps: seq<LocalProject>, id: string)
    ensures WithoutId(WithoutId(ps, id), id) == WithoutId(ps, id)
  {
    var once := WithoutId(ps, id);
    forall i | 0 <= i < |once| ensures once[i].id != id {
      assert once[i] in once;
    }
    DeleteAbsentIsNoOp(once, id);
  }

  /** Saving a project with a fresh id and then deleting that id gives back
      the list as it was. */
  lemma SaveThenDeleteRestores(ps: seq<LocalProject>, p: LocalProject)
    requires forall i :: 0 <= i < |ps| ==> ps[i].id != p.id
    ensures WithoutId(ps + [p], p.id) == ps
  {
    WithoutIdAppend(ps, [p], p.id);
    DeleteAbsentIsNoOp(ps, p.id);
    assert WithoutId([p], p.id) == [] + WithoutId([], p.id);
    assert WithoutId([p], p.id) == [];
  }

  /** The one storage key this utility uses. A write that the browser
      refuses (`writeFails`) is caught and leaves the key as it was. */
  class LocalStore {
    var slot: Slot

    constructor (initial: Slot)
      ensures slot == initial
    {
      slot := initial;
    }

    function Contents(): seq<LocalProject>
      reads this
    {
      Decoded(slot)
    }

    /** `getLocalProjects`. */
    method GetLocalProjects() returns (ps: seq<LocalProject>)
      ensures ps == Contents()
      ensures slot.Missing? || slot.Corrupt? ==> ps == []
    {
      if slot.Stored? {
        ps := slot.projects;
      } else {
        ps := [];
      }
    }

    /** `saveLocalProject`: the list read, with `project` pushed at the end,
        written back (text that did not parse is overwritten). */
    method SaveLocalProject(project: LocalProject, writeFails: bool)
      modifies this
      ensures writeFails ==> slot == old(slot)
      ensures !writeFails ==> slot == Stored(old(Contents()) + [project])
    {
      var projects := GetLocalProjects();
      projects := projects + [project];
      if !writeFails {
        slot := Stored(projects);
      }
    }

    /** `deleteLocalProject`: the list read, without every entry of that id,
        written back. */
    method DeleteLocalProject(projectId: string, writeFails: bool)
      modifies this
      ensures writeFails ==> slot == old(slot)
      ensures !writeFails ==> slot == Stored(WithoutId(old(Contents()), projectId))
    {
      var projects := GetLocalProjects();
      var filtered := WithoutId(projects, projectId);
      if !writeFails {
        slot := Stored(filtered);
      }
    }
  }

  // ---- Creating a local project ----

  function DigitChar(d: nat): (c: char)
    requires d < 10
    ensures '0' <= c <= '9'
  {
    "0123456789"[d]
  }

  function DigitValue(c: char): nat
  {
    if '0' <= c <= '9' then (c as int - '0' as int) as nat else 0
  }

  predicate IsDigit(c: char)
  {
    '0' <= c <= '9'
  }

  /** The decimal text of `n`, as `${n}` writes it. */
  function Decimal(n: nat): (s: string)
    ensures |s| >= 1 && forall i :: 0 <= i < |s| ==> IsDigit(s[i])
  {
    if n < 10 then [DigitChar(n)] else Decimal(n / 10) + [DigitChar(n % 10)]
  }

  /** The number a string of decimal digits denotes. */
  function ParseDecimal(s: string): nat
  {
    if s == [] then 0 else ParseDecimal(s[..|s| - 1]) * 10 + DigitValue(s[|s| - 1])
  }

  lemma DigitRoundTrip(d: nat)
    requires d < 10
    ensures DigitValue(DigitChar(d)) == d
  {
  }

  /** Reading back the decimal text of a number gives the number. */
  lemma {:induction false} DecimalRoundTrip(n: nat)
    ensures ParseDecimal(Decimal(n)) == n
    decreases n
  {
    if n < 10 {
      DigitRoundTrip(n);
      assert [DigitChar(n)][..0] == [];
    } else {
      var s := Decimal(n);
      DecimalRoundTrip(n / 10);
      DigitRoundTrip(n % 10);
      assert s[..|s| - 1] == Decimal(n / 10);
    }
  }

  /** The longest prefix of `s` made of digits. */
  function LeadingDigits(s: string): (r: string)
    ensures |r| <= |s| && r == s[..|r|]
  {
    if s != [] && IsDigit(s[0]) then [s[0]] + LeadingDigits(s[1..]) else []
  }

  lemma {:induction false} LeadingDigitsBeforeDash(d: string, rest: string)
    requires forall i :: 0 <= i < |d| ==> IsDigit(d[i])
    requires |rest| > 0 && rest[0] == '-'
    ensures LeadingDigits(d + rest) == d
    decreases |d|
  {
    if d == [] {
      assert d + rest == rest;
    } else {
      assert (d + rest)[0] == d[0];
      assert (d + rest)[1..] == d[1..] + rest;
      LeadingDigitsBeforeDash(d[1..], rest);
      assert [d[0]] + d[1..] == d;
    }
  }

  /** `local-<milliseconds>-<random suffix>`. */
  function LocalId(millis: nat, suffix: string): (id: string)
    ensures |id| > 6 && id[..6] == "local-"
  {
    "local-" + Decimal(millis) + "-" + suffix
  }

  /** Two local ids made at different milliseconds differ, whatever their
      random suffixes. */
  lemma LocalIdsDifferByTime(m1: nat, s1: string, m2: nat, s2: string)
    requires m1 != m2
    ensures LocalId(m1, s1) != LocalId(m2, s2)
  {
    var id1, id2 := LocalId(m1, s1), LocalId(m2, s2);
    if id1 == id2 {
      assert id1[6..] == Decimal(m1) + ("-" + s1);
      assert id2[6..] == Decimal(m2) + ("-" + s2);
      LeadingDigitsBeforeDash(Decimal(m1), "-" + s1);
      LeadingDigitsBeforeDash(Decimal(m2), "-" + s2);
      DecimalRoundTrip(m1);
      DecimalRoundTrip(m2);
      assert false;
    }
  }

  /** `createLocalProject`: the clock (`now` as an ISO string, `millis` as
      milliseconds) and the random suffix are parameters. */
  function CreateLocalProject(name: string, description: string, ownerId: string, now: string, millis: nat,
                              suffix: string): (p: LocalProject)
    ensures p.id == LocalId(millis, suffix) && |p.id| > 6 && p.id[..6] == "local-"
    ensures p.name == name && p.description == description && p.ownerId == ownerId
    ensures p.createdAt == now && p.updatedAt == p.createdAt
    ensures p.isLocal == Some(true)
  {
    LocalProject(LocalId(millis, suffix), name, description, ownerId, now, now, Some(true))
  }

  /** Two local projects created at different milliseconds have different
      ids, so deleting one by id never removes the other. */
  lemma LocalProjectsDifferByTime(name1: string, description1: string, owner1: string, now1: string, m1: nat, s1: string,
                                  name2: string, description2: string, owner2: string, now2: string, m2: nat, s2: string)
    requires m1 != m2
    ensures CreateLocalProject(name1, description1, owner1, now1, m1, s1).id
         != CreateLocalProject(name2, description2, owner2, now2, m2, s2).id
    ensures var p := CreateLocalProject(name1, description1, owner1, now1, m1, s1);
            var q := CreateLocalProject(name2, description2, owner2, now2, m2, s2);
            WithoutId([p, q], p.id) == [q]
  {
    var p := CreateLocalProject(name1, description1, owner1, now1, m1, s1);
    var q := CreateLocalProject(name2, description2, owner2, now2, m2, s2);
    LocalIdsDifferByTime(m1, s1, m2, s2);
    assert [p, q][1..] == [q] && [q][1..] == [];
  }
}
