/** StringMap (logo.py lines 37-62): a dictionary whose keys are folded to
    lower case when it is built with case folding, as the routine registry
    and every scope frame are. */
module StringMaps {
  import opened Atoms

  class StringMap<V> {
    const caseFold: bool
    /** The Python dictionary _map, under folded keys. */
    var contents: map<string, V>

    constructor (caseFold: bool)
      ensures this.caseFold == caseFold && contents == map[]
    {
      this.caseFold := caseFold;
      contents := map[];
    }

    /** The key a name is stored under. */
    function Key(key: string): (k: string)
      ensures caseFold ==> k == Lower(key)
      ensures !caseFold ==> k == key
    {
      if caseFold then Lower(key) else key
    }

    /** get(): the value under the folded key, or None. */
    method Get(key: string) returns (r: Option<V>)
      ensures r.Some? <==> Key(key) in contents
      ensures r.Some? ==> r.value == contents[Key(key)]
    {
      var k := Key(key);
      if k in contents {
        r := Some(contents[k]);
      } else {
        r := None;
      }
    }

    /** set(): every spelling with the same fold now finds the value. */
    method Set(key: string, value: V)
      modifies this
      ensures contents == old(contents)[Key(key) := value]
      ensures forall other :: Key(other) == Key(key) ==> Key(other) in contents && contents[Key(other)] == value
    {
      contents := contents[Key(key) := value];
    }

    /** has(). */
    method Has(key: string) returns (b: bool)
      ensures b <==> Key(key) in contents
    {
      b := Key(key) in contents;
    }

    /** delete(): del of an absent key raises KeyError and changes nothing. */
    method Delete(key: string) returns (r: Outcome<()>)
      modifies this
      ensures r.Ok? <==> Key(key) in old(contents)
      ensures contents == old(contents) - {Key(key)}
    {
      var k := Key(key);
      if k in contents {
        contents := contents - {k};
        r := Ok(());
      } else {
        r := Fail(MissingKey);
      }
    }

    /** empty(). */
    method Empty() returns (b: bool)
      ensures b <==> contents == map[]
    {
      b := |contents| == 0;
      if !b {
        var k :| k in contents;
      }
    }
  }

  /** In a folding map, two names that differ only in the case of ASCII
      letters are the same key, and a key already folded is itself. */
  lemma FoldedKeys(k1: string, k2: string)
    requires Lower(k1) == Lower(k2)
    ensures Lower(Upper(k1)) == Lower(k2)
    ensures Lower(Lower(k1)) == Lower(k2)
  {
    LowerOfUpper(k1);
    LowerIdempotent(k1);
  }
}
