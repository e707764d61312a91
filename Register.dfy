/**
 * The register store: a map from register number to value, and the register
 * numbers as an ascending array that gives the rows of the register table.
 * Every mutation rebuilds the key array from the map.
 */
module Registers {
  import opened Results
  import opened Numerals

  /** Strictly ascending: sorted and free of duplicates. */
  predicate Ascending(s: seq<int32>) {
    forall i, j :: 0 <= i < j < |s| ==> s[i] < s[j]
  }

  /** The smallest element of a non-empty set. */
  function Least(s: set<int32>): (m: int32)
    requires s != {}
    ensures m in s && forall x :: x in s ==> m <= x
  {
    HasLeast(s);
    var m :| IsLeast(m, s);
    m
  }

  predicate IsLeast(m: int32, s: set<int32>) {
    m in s && forall x :: x in s ==> m <= x
  }

  lemma {:induction false} HasLeast(s: set<int32>)
    requires s != {}
    ensures exists m :: IsLeast(m, s)
    decreases |s|
  {
    var y :| y in s;
    var rest := s - {y};
    if rest == {} {
      assert s == {y};
      assert IsLeast(y, s);
    } else {
      HasLeast(rest);
      var m :| IsLeast(m, rest);
      assert s == rest + {y};
      if y < m {
        assert IsLeast(y, s);
      } else {
        assert IsLeast(m, s);
      }
    }
  }

  /** `updateKeyList`: the key set as an ascending array (`toArray`, then `Arrays.sort`). */
  function SortedKeys(s: set<int32>): (keys: seq<int32>)
    decreases |s|
  {
    if s == {} then [] else
      var m := Least(s);
      [m] + SortedKeys(s - {m})
  }

  /** The key array is ascending and holds exactly the keys, each once. */
  lemma {:induction false} SortedKeysSpec(s: set<int32>)
    ensures Ascending(SortedKeys(s))
    ensures forall k :: k in SortedKeys(s) <==> k in s
    ensures |SortedKeys(s)| == |s|
    decreases |s|
  {
    if s != {} {
      var m := Least(s);
      SortedKeysSpec(s - {m});
      var r := SortedKeys(s - {m});
      assert SortedKeys(s) == [m] + r;
      forall i, j | 0 <= i < j < |[m] + r|
        ensures ([m] + r)[i] < ([m] + r)[j]
      {
        if i == 0 {
          assert ([m] + r)[j] == r[j - 1];
          assert r[j - 1] in r;
        } else {
          assert ([m] + r)[i] == r[i - 1] && ([m] + r)[j] == r[j - 1];
        }
      }
    }
  }

  /** The head of an ascending array is below everything after it. */
  lemma AscendingHead(a: seq<int32>)
    requires Ascending(a) && a != []
    ensures Ascending(a[1..])
    ensures forall k :: k in a <==> k == a[0] || k in a[1..]
    ensures forall k :: k in a[1..] ==> a[0] < k
  {
    assert a == [a[0]] + a[1..];
    forall k | k in a[1..]
      ensures a[0] < k
    {
      var i :| 0 <= i < |a[1..]| && a[1..][i] == k;
      assert a[i + 1] == k;
    }
  }

  /** Two ascending arrays with the same elements are the same array. */
  lemma {:induction false} AscendingUnique(a: seq<int32>, b: seq<int32>)
    requires Ascending(a) && Ascending(b)
    requires forall k :: k in a <==> k in b
    ensures a == b
    decreases |a|
  {
    if a != [] && b != [] {
      AscendingHead(a);
      AscendingHead(b);
      assert a[0] in b && b[0] in a;
      assert a[0] == b[0];
      assert forall k :: k in a[1..] <==> k in b[1..];
      AscendingUnique(a[1..], b[1..]);
      assert a == [a[0]] + a[1..] && b == [b[0]] + b[1..];
    } else {
      if a != [] {
        HeadIsMember(a);
        assert false;
      }
      if b != [] {
        HeadIsMember(b);
        assert false;
      }
    }
  }

  lemma HeadIsMember(s: seq<int32>)
    requires s != []
    ensures s[0] in s
  {
  }

  /** A cell of the register table: the name column or the value column. */
  datatype Cell = Name(text: string) | Value(value: int32)

  class Register {
    var memory: map<int32, int32>
    var keys: seq<int32>

    /** The key array is up to date: the ascending list of the map's keys. */
    ghost predicate Valid()
      reads this
    {
      && keys == SortedKeys(memory.Keys)
      && forall i :: 0 <= i < |keys| ==> keys[i] in memory
    }

    /** A fresh store: no register is set. */
    constructor()
      ensures memory == map[] && keys == [] && Valid()
    {
      memory := map[];
      keys := [];
    }

    /** `updateKeyList`: rebuild the key array from the map. */
    method UpdateKeyList()
      modifies this
      ensures memory == old(memory) && Valid()
    {
      keys := SortedKeys(memory.Keys);
      SortedKeysSpec(memory.Keys);
    }

    /** `clear`: forget every register. */
    method Clear()
      modifies this
      ensures memory == map[] && keys == [] && Valid()
    {
      UpdateKeyList();
      memory := map[];
      UpdateKeyList();
    }

    /** `setValue`: store a value and refresh the key array. */
    method SetValue(register: int32, value: int32)
      modifies this
      ensures memory == old(memory)[register := value] && Valid()
    {
      memory := memory[register := value];
      UpdateKeyList();
    }

    /** `getValue`: the stored value; a register read before it was set is set to 0 first. */
    method GetValue(register: int32) returns (value: int32)
      modifies this
      ensures register in old(memory) ==> value == old(memory)[register] && memory == old(memory)
      ensures register !in old(memory) ==> value == 0 && memory == old(memory)[register := 0]
      ensures old(Valid()) && register in old(memory) ==> keys == old(keys)
      ensures register !in old(memory) ==> Valid()
    {
      if register !in memory {
        SetValue(register, 0);
      }
      value := memory[register];
    }

    /** `getRowCount`: one row per register that has been set. */
    function RowCount(): (n: nat)
      reads this
      ensures Valid() ==> n == |keys|
    {
      SortedKeysSpec(memory.Keys);
      |memory|
    }

    /**
     * `getValueAt`: column 0 names the register of the row, any other column
     * holds its value; rows follow ascending register number. A row past the
     * key array is an ArrayIndexOutOfBoundsException (None).
     */
    method GetValueAt(row: int, column: int) returns (cell: Option<Cell>)
      requires Valid()
      modifies this
      ensures memory == old(memory) && keys == old(keys) && Valid()
      ensures !(0 <= row < |keys|) ==> cell == None
      ensures 0 <= row < |keys| && column == 0 ==> cell == Some(Name("x" + IntToString(keys[row])))
      ensures 0 <= row < |keys| && column != 0 ==> cell == Some(Value(memory[keys[row]]))
    {
      if |keys| <= row {
        UpdateKeyList();
      }
      if row < 0 || |keys| <= row {
        return None;
      }
      if column == 0 {
        cell := Some(Name("x" + IntToString(keys[row])));
      } else {
        var v := GetValue(keys[row]);
        cell := Some(Value(v));
      }
    }

    /** `isCellEditable`: only the value column can be edited. */
    static function IsCellEditable(row: int, column: int): (editable: bool)
      ensures editable <==> column == 1
    {
      column == 1
    }

    /**
     * `setValueAt`: the edited text is parsed as a Java `int`; text that does
     * not parse stores 0. The column is ignored. A row past the key array
     * throws out of both the attempt and the fallback (`ok` is false).
     */
    method SetValueAt(text: string, row: int, column: int) returns (ok: bool)
      requires Valid()
      modifies this
      ensures ok <==> 0 <= row < |old(keys)|
      ensures !ok ==> memory == old(memory) && keys == old(keys)
      ensures ok ==> memory == old(memory)[old(keys)[row] := match ParseInt(text) case Some(v) => v case None => 0]
      ensures Valid()
    {
      if row < 0 || |keys| <= row {
        return false;
      }
      match ParseInt(text) {
        case Some(v) => SetValue(keys[row], v);
        case None => SetValue(keys[row], 0);
      }
      ok := true;
    }
  }

  /** Every key in the array is a set register, and every set register has a row. */
  lemma RowsAreRegisters(memory: map<int32, int32>, keys: seq<int32>)
    requires keys == SortedKeys(memory.Keys)
    ensures |keys| == |memory|
    ensures forall k :: k in keys <==> k in memory
    ensures Ascending(keys)
  {
    SortedKeysSpec(memory.Keys);
  }

  /** The key array is determined by the map: any ascending list of exactly its keys is it. */
  lemma KeysDetermined(memory: map<int32, int32>, keys: seq<int32>)
    requires Ascending(keys) && forall k :: k in keys <==> k in memory
    ensures keys == SortedKeys(memory.Keys)
  {
    SortedKeysSpec(memory.Keys);
    AscendingUnique(keys, SortedKeys(memory.Keys));
  }

  /** After `setValue(r, v)`, reading `r` gives `v` and leaves the store alone. */
  method SetThenGet(store: Register, register: int32, value: int32) returns (read: int32)
    modifies store
    ensures read == value
    ensures store.memory == old(store.memory)[register := value]
  {
    store.SetValue(register, value);
    read := store.GetValue(register);
  }

  /** After `clear`, the table has no rows. */
  method ClearEmpties(store: Register) returns (rows: nat)
    modifies store
    ensures rows == 0
  {
    store.Clear();
    rows := store.RowCount();
  }
}
