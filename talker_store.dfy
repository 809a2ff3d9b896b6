/**
 * The talker store: a JSON file holding an array of talker records. Every
 * operation reads the whole array, changes it and writes it back. The file is
 * the `contents` field of a `TalkerFile`; serialisation is not modelled.
 */
module TalkerStore {
  import opened Wrappers

  datatype Talk = Talk(watchedAt: string, rate: int)

  datatype Talker = Talker(id: int, name: string, age: int, talk: Talk)

  /** The body handed to create and update: every field but the id. */
  datatype TalkerData = TalkerData(name: string, age: int, talk: Talk)

  // The TypeError texts the operations return when the read gave back an
  // error text (a string has no push, findIndex or filter), and when
  // updateRate indexes the array at -1.
  const PushNotAFunction := "talkerFile.push is not a function"
  const FindIndexNotAFunction := "talkerFile.findIndex is not a function"
  const FilterNotAFunction := "talkerFile.filter is not a function"
  const CannotReadTalk := "Cannot read properties of undefined (reading 'talk')"

  predicate HasId(s: seq<Talker>, id: int)
  {
    exists k :: 0 <= k < |s| && s[k].id == id
  }

  /** Position k holds the first record of s whose id is `id`. */
  predicate IsFirstMatch(s: seq<Talker>, k: int, id: int)
  {
    0 <= k < |s| && s[k].id == id && forall j :: 0 <= j < k ==> s[j].id != id
  }

  predicate UniqueIds(s: seq<Talker>)
  {
    forall j, k :: 0 <= j < k < |s| ==> s[j].id != s[k].id
  }

  /** `findIndex(talker => talker.id === id)`: the first matching position, or -1. */
  function FindIndex(s: seq<Talker>, id: int): (i: int)
    ensures i == -1 || IsFirstMatch(s, i, id)
    ensures i == -1 <==> !HasId(s, id)
  {
    if s == [] then -1
    else if s[0].id == id then 0
    else
      var i := FindIndex(s[1..], id);
      if i == -1 then -1 else i + 1
  }

  /** `find(talker => talker.id === id)`, the lookup of GET /talker/:id. */
  function Find(s: seq<Talker>, id: int): (r: Option<Talker>)
    ensures r.None? <==> !HasId(s, id)
    ensures r.Some? ==> exists k :: IsFirstMatch(s, k, id) && s[k] == r.value
  {
    var i := FindIndex(s, id);
    if i == -1 then None else Some(s[i])
  }

  /** `filter(talker => talker.id !== id)`: the array deleteTalker writes back. */
  function WithoutId(s: seq<Talker>, id: int): (r: seq<Talker>)
    ensures forall t :: t in r <==> t in s && t.id != id
    ensures !HasId(r, id)
    ensures |r| < |s| <==> HasId(s, id)
    ensures |r| <= |s|
  {
    if s == [] then []
    else
      var rest := WithoutId(s[1..], id);
      assert HasId(s, id) <==> s[0].id == id || HasId(s[1..], id) by {
        if HasId(s[1..], id) {
          var k :| 0 <= k < |s[1..]| && s[1..][k].id == id;
          assert s[k + 1].id == id;
        }
        if HasId(s, id) && s[0].id != id {
          var k :| 0 <= k < |s| && s[k].id == id;
          assert s[1..][k - 1].id == id;
        }
      }
      if s[0].id == id then rest else [s[0]] + rest
  }

  /** The id writeNewTalker assigns: one more than the number of records. */
  function NextId(s: seq<Talker>): (r: int)
    ensures r >= 1
    ensures (forall k :: 0 <= k < |s| ==> s[k].id <= |s|) ==> !HasId(s, r)
  {
    |s| + 1
  }

  /** `{ id, ...data }`: the record that carries `data` under `id`. */
  function WithId(id: int, data: TalkerData): (r: Talker)
    ensures r.id == id
    ensures TalkerData(r.name, r.age, r.talk) == data
  {
    Talker(id, data.name, data.age, data.talk)
  }

  /** `{ id, ...talkerData }` in writeNewTalker: the data under the assigned id. */
  function NewTalker(s: seq<Talker>, data: TalkerData): (r: Talker)
    ensures r.id == NextId(s)
    ensures TalkerData(r.name, r.age, r.talk) == data
  {
    WithId(NextId(s), data)
  }

  /**
   * The array updateTalker writes back. With no match, findIndex gives -1 and
   * the assignment to index -1 makes a property that JSON.stringify drops.
   */
  function AfterUpdate(s: seq<Talker>, id: int, data: TalkerData): (r: seq<Talker>)
    ensures |r| == |s|
    ensures forall k :: 0 <= k < |s| ==>
      r[k] == if IsFirstMatch(s, k, id) then WithId(id, data) else s[k]
  {
    var i := FindIndex(s, id);
    if i == -1 then s else s[i := WithId(id, data)]
  }

  /**
   * The array updateRate writes back, or the error it throws when no record
   * matches (`talkerFile[-1]` is undefined, so reading `.talk` fails).
   */
  function AfterRateUpdate(s: seq<Talker>, id: int, rate: int): (r: Result<seq<Talker>, string>)
    ensures r.Err? <==> !HasId(s, id)
    ensures r.Err? ==> r.error == CannotReadTalk
    ensures r.Ok? ==> |r.value| == |s|
    ensures r.Ok? ==> forall k :: 0 <= k < |s| ==>
      && r.value[k].id == s[k].id
      && r.value[k].name == s[k].name
      && r.value[k].age == s[k].age
      && r.value[k].talk.watchedAt == s[k].talk.watchedAt
      && r.value[k].talk.rate == if IsFirstMatch(s, k, id) then rate else s[k].talk.rate
  {
    var i := FindIndex(s, id);
    if i == -1 then Err(CannotReadTalk)
    else Ok(s[i := s[i].(talk := s[i].talk.(rate := rate))])
  }

  /** The JSON file, as the array it holds or the failure to read it. */
  class TalkerFile {
    /** The records the file holds, in file order. */
    var contents: seq<Talker>
    /** Some(text) when reading or parsing the file fails with that message. */
    var readFailure: Option<string>

    constructor (contents: seq<Talker>, readFailure: Option<string>)
      ensures this.contents == contents && this.readFailure == readFailure
    {
      this.contents := contents;
      this.readFailure := readFailure;
    }

    /** readTalkerFile: the parsed array, or the caught error's message. */
    function ReadTalkerFile(): (r: Result<seq<Talker>, string>)
      reads this
      ensures r.Ok? <==> readFailure.None?
      ensures r.Ok? ==> r.value == contents
      ensures r.Err? ==> r.error == readFailure.value
    {
      if readFailure.Some? then Err(readFailure.value) else Ok(contents)
    }

    /** writeNewTalker: appends the record with id `|contents| + 1` and returns it. */
    method WriteNewTalker(data: TalkerData) returns (r: Result<Talker, string>)
      modifies this`contents
      ensures readFailure.Some? ==> r == Err(PushNotAFunction) && contents == old(contents)
      ensures readFailure.None? ==>
        && r == Ok(NewTalker(old(contents), data))
        && contents == old(contents) + [r.value]
    {
      var file := ReadTalkerFile();
      if file.Err? {
        return Err(PushNotAFunction);
      }
      var talkerFile := file.value;
      var id := |talkerFile| + 1;
      talkerFile := talkerFile + [WithId(id, data)];
      contents := talkerFile;
      r := Ok(WithId(id, data));
    }

    /** updateTalker: replaces the first record with id `id`, and returns the new record. */
    method UpdateTalker(id: int, data: TalkerData) returns (r: Result<Talker, string>)
      modifies this`contents
      ensures readFailure.Some? ==> r == Err(FindIndexNotAFunction) && contents == old(contents)
      ensures readFailure.None? ==>
        && r == Ok(WithId(id, data))
        && contents == AfterUpdate(old(contents), id, data)
      ensures readFailure.None? && !HasId(old(contents), id) ==> contents == old(contents)
    {
      var file := ReadTalkerFile();
      if file.Err? {
        return Err(FindIndexNotAFunction);
      }
      var talkerFile := file.value;
      var talkerIndex := FindIndex(talkerFile, id);
      if talkerIndex != -1 {
        talkerFile := talkerFile[talkerIndex := WithId(id, data)];
      }
      contents := talkerFile;
      r := Ok(WithId(id, data));
    }

    /** updateRate: sets `talk.rate` of the first record with id `id`; None is a normal return. */
    method UpdateRate(id: int, newRate: int) returns (r: Option<string>)
      modifies this`contents
      ensures readFailure.Some? ==> r == Some(FindIndexNotAFunction) && contents == old(contents)
      ensures readFailure.None? && !HasId(old(contents), id) ==>
        r == Some(CannotReadTalk) && contents == old(contents)
      ensures readFailure.None? && HasId(old(contents), id) ==>
        r == None && contents == AfterRateUpdate(old(contents), id, newRate).value
    {
      var file := ReadTalkerFile();
      if file.Err? {
        return Some(FindIndexNotAFunction);
      }
      var talkerFile := file.value;
      var talkerIndex := FindIndex(talkerFile, id);
      if talkerIndex == -1 {
        return Some(CannotReadTalk);
      }
      var talker := talkerFile[talkerIndex];
      talkerFile := talkerFile[talkerIndex := talker.(talk := talker.talk.(rate := newRate))];
      contents := talkerFile;
      r := None;
    }

    /** deleteTalker: writes back every record whose id is not `id`; None is a normal return. */
    method DeleteTalker(id: int) returns (r: Option<string>)
      modifies this`contents
      ensures readFailure.Some? ==> r == Some(FilterNotAFunction) && contents == old(contents)
      ensures readFailure.None? ==> r == None && contents == WithoutId(old(contents), id)
    {
      var file := ReadTalkerFile();
      if file.Err? {
        return Some(FilterNotAFunction);
      }
      var filteredTalkers := WithoutId(file.value, id);
      contents := filteredTalkers;
      r := None;
    }
  }

  // ---------------------------------------------------------------------------
  // Id assignment

  /** Creating keeps the ids unique exactly when no record already has id `|s| + 1`. */
  lemma CreateKeepsUniqueIdsIff(s: seq<Talker>, data: TalkerData)
    requires UniqueIds(s)
    ensures UniqueIds(s + [NewTalker(s, data)]) <==> !HasId(s, NextId(s))
  {
    var s' := s + [NewTalker(s, data)];
    if HasId(s, NextId(s)) {
      var k :| 0 <= k < |s| && s[k].id == NextId(s);
      assert s'[k].id == s'[|s|].id;
    }
  }

  /** The ids are exactly 1..|s| in some order: what creating without deleting keeps. */
  predicate DenseIds(s: seq<Talker>)
  {
    UniqueIds(s) && forall k :: 0 <= k < |s| ==> 1 <= s[k].id <= |s|
  }

  /** While nothing is deleted, every id create assigns is fresh. */
  lemma CreateKeepsDenseIds(s: seq<Talker>, data: TalkerData)
    requires DenseIds(s)
    ensures !HasId(s, NextId(s))
    ensures DenseIds(s + [NewTalker(s, data)])
  {
  }

  /**
   * [1, 2, 3] -> delete 2 -> create assigns id 3 again; the ids are no longer
   * unique and the lookup of id 3 finds the old record, not the new one.
   */
  lemma DeleteThenCreateRepeatsId(a: Talker, b: Talker, c: Talker, data: TalkerData)
    requires a.id == 1 && b.id == 2 && c.id == 3
    ensures WithoutId([a, b, c], 2) == [a, c]
    ensures NewTalker([a, c], data).id == 3
    ensures !UniqueIds([a, c] + [NewTalker([a, c], data)])
    ensures Find([a, c] + [NewTalker([a, c], data)], 3) == Some(c)
  {
    assert [a, b, c][1..] == [b, c];
    assert [b, c][1..] == [c];
    assert [c][1..] == [];
    var s' := [a, c] + [NewTalker([a, c], data)];
    assert s'[1] == c && s'[2].id == 3;
    assert s'[1..] == [c, NewTalker([a, c], data)];
  }

  /** When the assigned id is fresh, looking it up after create gives the created record. */
  lemma FindAfterCreate(s: seq<Talker>, data: TalkerData)
    requires !HasId(s, NextId(s))
    ensures Find(s + [NewTalker(s, data)], NextId(s)) == Some(NewTalker(s, data))
  {
    var s' := s + [NewTalker(s, data)];
    assert s'[|s|].id == NextId(s);
  }

  // ---------------------------------------------------------------------------
  // Update and rate update

  /** After a matching update, the lookup of the id gives the record updateTalker returned. */
  lemma FindAfterUpdate(s: seq<Talker>, id: int, data: TalkerData)
    requires HasId(s, id)
    ensures Find(AfterUpdate(s, id, data), id) == Some(WithId(id, data))
  {
  }

  /** Neither update changes any record's id, so both keep the ids unique. */
  lemma UpdatesKeepIds(s: seq<Talker>, id: int, data: TalkerData, rate: int)
    ensures forall k :: 0 <= k < |s| ==> AfterUpdate(s, id, data)[k].id == s[k].id
    ensures UniqueIds(s) ==> UniqueIds(AfterUpdate(s, id, data))
    ensures HasId(s, id) && UniqueIds(s) ==> UniqueIds(AfterRateUpdate(s, id, rate).value)
  {
  }

  /** An update with an id nobody has writes the file back unchanged. */
  lemma UpdateWithoutMatchKeepsFile(s: seq<Talker>, id: int, data: TalkerData)
    requires !HasId(s, id)
    ensures AfterUpdate(s, id, data) == s
  {
  }

  // ---------------------------------------------------------------------------
  // Delete

  /** Deleting an id nobody has leaves the array as it was. */
  lemma {:induction false} DeleteAbsentKeepsFile(s: seq<Talker>, id: int)
    requires !HasId(s, id)
    ensures WithoutId(s, id) == s
  {
    if s != [] {
      assert s[0].id != id;
      assert forall k :: 0 <= k < |s[1..]| ==> s[1..][k] == s[k + 1];
      DeleteAbsentKeepsFile(s[1..], id);
      assert s == [s[0]] + s[1..];
    }
  }

  /** Deleting twice is deleting once. */
  lemma DeleteIdempotent(s: seq<Talker>, id: int)
    ensures WithoutId(WithoutId(s, id), id) == WithoutId(s, id)
  {
  }

  /** Delete keeps the surviving records in their order: it is a filter. */
  lemma {:induction false} DeleteDistributes(a: seq<Talker>, b: seq<Talker>, id: int)
    ensures WithoutId(a + b, id) == WithoutId(a, id) + WithoutId(b, id)
  {
    if a == [] {
      assert a + b == b;
    } else {
      assert (a + b)[1..] == a[1..] + b;
      DeleteDistributes(a[1..], b, id);
    }
  }

  /** A record with another id survives a delete; the deleted id is gone. */
  lemma DeleteThenFind(s: seq<Talker>, id: int)
    ensures Find(WithoutId(s, id), id) == None
    ensures forall t :: t in s && t.id != id ==> t in WithoutId(s, id)
  {
  }

  /** Delete keeps the ids unique. */
  lemma {:induction false} DeleteKeepsUniqueIds(s: seq<Talker>, id: int)
    requires UniqueIds(s)
    ensures UniqueIds(WithoutId(s, id))
  {
    if s != [] {
      var rest := WithoutId(s[1..], id);
      assert UniqueIds(s[1..]) by {
        forall j, k | 0 <= j < k < |s[1..]| ensures s[1..][j].id != s[1..][k].id {
          assert s[j + 1].id != s[k + 1].id;
        }
      }
      DeleteKeepsUniqueIds(s[1..], id);
      if s[0].id != id {
        var r := [s[0]] + rest;
        forall j, k | 0 <= j < k < |r| ensures r[j].id != r[k].id {
          if j == 0 {
            assert r[k] in s[1..];
            var m :| 0 <= m < |s[1..]| && s[1..][m] == r[k];
            assert s[m + 1] == r[k];
          } else {
            assert r[j] == rest[j - 1] && r[k] == rest[k - 1];
          }
        }
      }
    }
  }
}
