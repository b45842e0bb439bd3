/** The browser half of the key contract and the file table's selection
    logic (the Angular `StoreComponent`). Random bytes and the services the
    component calls are parameters; the calls are returned in order. */
module StoreComponent {
  import opened Wrappers
  import opened Text
  import Hex
  import Aead

  /** `Number.prototype.toString(16)` on a non-negative integer: lower-case
      digits, most significant first, no leading zeros. */
  function ToRadix16(n: nat): (s: string)
    ensures |s| > 0 && (|s| > 1 ==> s[0] != '0')
    ensures forall i :: 0 <= i < |s| ==> ('0' <= s[i] <= '9') || ('a' <= s[i] <= 'f')
    ensures n < 16 <==> |s| == 1
    ensures n < 16 ==> s == [Hex.LowerHexDigit(n)]
    ensures 16 <= n < 256 ==> s == [Hex.LowerHexDigit(n / 16), Hex.LowerHexDigit(n % 16)]
  {
    if n < 16 then [Hex.LowerHexDigit(n)] else ToRadix16(n / 16) + [Hex.LowerHexDigit(n % 16)]
  }

  /** `String.prototype.padStart(width, fill)` with a one-character fill. */
  function PadStart(s: string, width: nat, fill: char): (r: string)
    ensures |s| >= width ==> r == s
    ensures |s| < width ==> |r| == width && r[width - |s|..] == s
                            && forall i :: 0 <= i < width - |s| ==> r[i] == fill
  {
    if |s| >= width then s else seq(width - |s|, _ => fill) + s
  }

  /** One byte as `toString(16).padStart(2, '0')`: exactly its two
      lower-case hex digits, high nibble first. */
  function ByteToHex(b: byte): (r: string)
    ensures r == [Hex.LowerHexDigit(b / 16), Hex.LowerHexDigit(b % 16)]
  {
    PadStart(ToRadix16(b), 2, '0')
  }

  /** `bytesToHex`: the byte strings joined in input order. */
  function BytesToHex(bytes: seq<byte>): (r: string)
    ensures |r| == 2 * |bytes|
    ensures forall i :: 0 <= i < |bytes| ==> r[2 * i..2 * i + 2] == ByteToHex(bytes[i])
  {
    if bytes == [] then ""
    else
      var rest := BytesToHex(bytes[1..]);
      var r := ByteToHex(bytes[0]) + rest;
      assert forall i :: 1 <= i < |bytes| ==> r[2 * i..2 * i + 2] == rest[2 * (i - 1)..2 * (i - 1) + 2];
      r
  }

  /** The two characters `ByteToHex` wrote at pair `i` are hex digits that
      spell the byte again. */
  lemma PairOfByte(s: string, i: nat, b: byte)
    requires 2 * i + 2 <= |s| && s[2 * i..2 * i + 2] == ByteToHex(b)
    ensures Hex.IsHexDigit(s[2 * i]) && Hex.IsHexDigit(s[2 * i + 1])
    ensures Hex.PairValue(s, i) == b
  {
    assert s[2 * i] == s[2 * i..2 * i + 2][0];
    assert s[2 * i + 1] == s[2 * i..2 * i + 2][1];
  }

  /** Every character `BytesToHex` writes is a hex digit. */
  lemma {:induction false} BytesToHexDigits(bytes: seq<byte>)
    ensures Hex.AllHexDigits(BytesToHex(bytes))
  {
    if bytes != [] {
      var head := ByteToHex(bytes[0]);
      var rest := BytesToHex(bytes[1..]);
      BytesToHexDigits(bytes[1..]);
      assert BytesToHex(bytes) == head + rest;
      assert Hex.IsHexDigit(head[0]) && Hex.IsHexDigit(head[1]);
      forall k | 0 <= k < |head + rest| ensures Hex.IsHexDigit((head + rest)[k]) {
        if k >= 2 {
          assert (head + rest)[k] == rest[k - 2];
        }
      }
    }
  }

  /** The server's decoder reads back every byte the client wrote. */
  lemma DecodeBytesToHex(bytes: seq<byte>)
    ensures Hex.Decode(BytesToHex(bytes)) == Ok(bytes)
  {
    var s := BytesToHex(bytes);
    BytesToHexDigits(bytes);
    var r := Hex.Decode(s);
    assert r.Ok?;
    var d := r.value;
    assert |d| == |bytes|;
    forall i | 0 <= i < |bytes| ensures d[i] == bytes[i] {
      assert d[i] == Hex.PairValue(s, i);
      PairOfByte(s, i, bytes[i]);
    }
    assert d == bytes;
  }

  /** `isValidKey`: 64 characters, each in [0-9a-fA-F]. (The browser counts
      UTF-16 units, which agrees with characters whenever every character is
      a hex digit.) */
  predicate IsValidKey(s: string) {
    |s| == 64 && |s| > 0 && Hex.AllHexDigits(s)
  }

  /** The browser check and the server's key check accept the same strings. */
  lemma ValidKeyIsServerKey(s: string)
    ensures IsValidKey(s) <==> Aead.DecodeKey(s).Some?
  {
  }

  /** `generateSecretKey` on the 32 bytes drawn by `getRandomValues`: the form
      value is a key the validator accepts and the server decodes back to
      the same bytes. */
  function GenerateSecretKey(random: Aead.Key): (r: string)
    ensures IsValidKey(r)
    ensures Aead.DecodeKey(r) == Some(random)
  {
    DecodeBytesToHex(random);
    BytesToHex(random)
  }

  /** A table row, identified as the selection model identifies rows. */
  type Row = nat

  /** The rows currently shown, as a set. */
  function Shown(rows: seq<Row>): (r: set<Row>)
    ensures forall x :: x in r <==> x in rows
  {
    set x | x in rows
  }

  /** `isAllSelected` as written: the number of selected rows equals the
      number of rows shown, whichever rows they are. */
  predicate IsAllSelected(selected: set<Row>, rows: seq<Row>) {
    |selected| == |rows|
  }

  /** `masterToggle` as written. */
  function MasterToggle(selected: set<Row>, rows: seq<Row>): (r: set<Row>)
    ensures IsAllSelected(selected, rows) ==> (forall k :: 0 <= k < |rows| ==> rows[k] !in r) && r <= selected
    ensures !IsAllSelected(selected, rows) ==> (forall k :: 0 <= k < |rows| ==> rows[k] in r) && selected <= r
    ensures forall x :: x !in rows ==> (x in r <==> x in selected)
  {
    if IsAllSelected(selected, rows) then selected - Shown(rows) else selected + Shown(rows)
  }

  /** What "all selected" evidently means: every shown row is selected. */
  predicate AllRowsSelected(selected: set<Row>, rows: seq<Row>) {
    forall k :: 0 <= k < |rows| ==> rows[k] in selected
  }

  /** `masterToggle` with the membership test: afterwards either every shown
      row is selected or none is. */
  function MasterToggleByRows(selected: set<Row>, rows: seq<Row>): (r: set<Row>)
    ensures AllRowsSelected(selected, rows) ==> forall k :: 0 <= k < |rows| ==> rows[k] !in r
    ensures !AllRowsSelected(selected, rows) ==> AllRowsSelected(r, rows)
    ensures forall x :: x !in rows ==> (x in r <==> x in selected)
  {
    if AllRowsSelected(selected, rows) then selected - Shown(rows) else selected + Shown(rows)
  }

  /** Toggling twice restores a selection that held all of the shown rows
      or none of them. A partial selection is not restored: its first toggle
      selects every shown row and the second deselects them all, as {1} over
      rows [1, 2] shows. */
  lemma MasterToggleByRowsTwice(selected: set<Row>, rows: seq<Row>)
    requires AllRowsSelected(selected, rows) || forall k :: 0 <= k < |rows| ==> rows[k] !in selected
    ensures MasterToggleByRows(MasterToggleByRows(selected, rows), rows) == selected
    ensures MasterToggleByRows(MasterToggleByRows({1}, [1, 2]), [1, 2]) == {}
  {
    var once := MasterToggleByRows(selected, rows);
    if AllRowsSelected(selected, rows) {
      if |rows| > 0 {
        assert rows[0] !in once;
      }
    } else {
      assert AllRowsSelected(once, rows);
    }
    assert Shown([1, 2]) == {1, 2};
    assert !AllRowsSelected({1}, [1, 2]) by { assert [1, 2][1] !in {1}; }
  }

  /** A selection left over from before a refresh with as many entries as
      the new table has rows counts as "all selected", so the toggle
      deselects nothing and selects nothing: rows 1 and 2 stay unselected.
      The membership test selects them. */
  lemma StaleSelectionToggle()
    ensures IsAllSelected({3, 4}, [1, 2]) && !AllRowsSelected({3, 4}, [1, 2])
    ensures MasterToggle({3, 4}, [1, 2]) == {3, 4}
    ensures MasterToggleByRows({3, 4}, [1, 2]) == {1, 2, 3, 4}
  {
    assert Shown([1, 2]) == {1, 2};
    assert |{3, 4}| == 2;
    assert 1 !in {3, 4};
  }

  predicate Distinct(rows: seq<Row>) {
    forall i, j :: 0 <= i < j < |rows| ==> rows[i] != rows[j]
  }

  lemma {:induction false} DistinctCard(rows: seq<Row>)
    requires Distinct(rows)
    ensures |Shown(rows)| == |rows|
  {
    if rows != [] {
      DistinctCard(rows[1..]);
      assert Shown(rows) == {rows[0]} + Shown(rows[1..]);
      assert rows[0] !in Shown(rows[1..]);
    }
  }

  /** When the selection holds only shown rows and rows are distinct, the
      count test and the membership test agree. */
  lemma CountTestSound(selected: set<Row>, rows: seq<Row>)
    requires Distinct(rows) && forall x :: x in selected ==> x in rows
    ensures IsAllSelected(selected, rows) <==> AllRowsSelected(selected, rows)
  {
    var shown := Shown(rows);
    DistinctCard(rows);
    assert selected <= shown;
    assert |shown| == |selected| + |shown - selected| by {
      assert shown == selected + (shown - selected);
      assert selected * (shown - selected) == {};
    }
    if IsAllSelected(selected, rows) {
      assert |shown - selected| == 0;
      assert shown - selected == {};
      forall k | 0 <= k < |rows| ensures rows[k] in selected {
        assert rows[k] in shown;
      }
    }
    if AllRowsSelected(selected, rows) {
      forall x | x in shown ensures x in selected {
        var k :| 0 <= k < |rows| && rows[k] == x;
      }
      assert shown == selected;
    }
  }

  /** The calls the component makes on its services. */
  datatype Call =
    | StartDownload(name: string, identifier: string, secretKey: string)
    | CatalogRemove(identifier: string)
    | StorageDelete(identifier: string)

  /** `downloadFile`: nothing for an empty identifier, otherwise one
      download with the key currently in the form. */
  function DownloadFile(name: string, identifier: string, secretKey: string): (calls: seq<Call>)
    ensures calls == [] <==> identifier == ""
    ensures calls != [] ==> calls == [StartDownload(name, identifier, secretKey)]
  {
    if identifier == "" then [] else [StartDownload(name, identifier, secretKey)]
  }

  /** `deleteFile`: nothing for an empty identifier, otherwise the catalog
      entry is removed and the stored object deleted, both under the same
      identifier, the catalog first and neither waiting for the other. */
  function DeleteFile(identifier: string): (calls: seq<Call>)
    ensures calls == [] <==> identifier == ""
    ensures calls != [] ==> |calls| == 2 && calls[0].CatalogRemove? && calls[1].StorageDelete?
    ensures forall k :: 0 <= k < |calls| ==> calls[k].identifier == identifier
  {
    if identifier == "" then [] else [CatalogRemove(identifier), StorageDelete(identifier)]
  }
}
