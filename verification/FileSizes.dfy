/** How many bytes a directory holds: the sum over its files, taken in any order. */
module FileSizes {
  type Bytes = seq<nat>

  ghost function Total<K(!new)>(files: map<K, Bytes>): nat {
    if files == map[] then 0
    else
      var name :| name in files;
      |files[name]| + Total(files - {name})
  }

  lemma {:induction false} TotalWithout<K(!new)>(files: map<K, Bytes>, name: K)
    requires name in files
    ensures Total(files) == |files[name]| + Total(files - {name})
    decreases |files|
  {
    var other :| other in files && Total(files) == |files[other]| + Total(files - {other});
    if other != name {
      TotalWithout(files - {other}, name);
      TotalWithout(files - {name}, other);
      assert files - {other} - {name} == files - {name} - {other};
    }
  }

  lemma TotalWith<K(!new)>(files: map<K, Bytes>, name: K, bytes: Bytes)
    ensures Total(files[name := bytes]) == |bytes| + Total(files - {name})
    ensures Total(files) == Total(files - {name}) + if name in files then |files[name]| else 0
  {
    TotalWithout(files[name := bytes], name);
    assert files[name := bytes] - {name} == files - {name};
    if name in files {
      TotalWithout(files, name);
    } else {
      assert files - {name} == files;
    }
  }

  lemma {:induction false} TotalOfFewer<K(!new)>(fewer: map<K, Bytes>, files: map<K, Bytes>)
    requires forall name :: name in fewer ==> name in files && fewer[name] == files[name]
    ensures Total(fewer) <= Total(files)
    decreases |files|
  {
    if files != map[] {
      var name :| name in files;
      TotalWithout(files, name);
      TotalWith(fewer, name, files[name]);
      TotalOfFewer(fewer - {name}, files - {name});
    }
  }

  lemma {:induction false} TotalSplit<K(!new)>(files: map<K, Bytes>, part: set<K>)
    requires part <= files.Keys
    ensures Total(files) == Total(files - part) + Total(map name | name in part :: files[name])
    decreases |part|
  {
    if part == {} {
      assert files - part == files;
      assert (map name | name in part :: files[name]) == map[];
    } else {
      var first :| first in part;
      var rest := part - {first};
      TotalSplit(files, rest);
      var more := map name | name in part :: files[name];
      assert more - {first} == map name | name in rest :: files[name];
      TotalWithout(more, first);
      TotalWithout(files - rest, first);
      assert files - rest - {first} == files - part;
    }
  }
}
