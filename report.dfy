/**
 * `create_dataframe` of generate_license_html_comb.py: the parsed blocks
 * flattened into one table row per checked-out user, each carrying its
 * license's name and counts and the free count derived from them.
 */
module Report {
  import opened Seqs
  import opened Lmstat

  /** The columns of the table, in order. */
  const COLUMNS: seq<string> :=
    ["License", "User", "Station", "Total Issued", "Total In Use", "Total Free", "Details"]

  /** One table row. */
  datatype Row = Row(
    license: string, user: string, station: string,
    totalIssued: int, totalInUse: int, totalFree: int, details: string)

  /** The row of user `u` of block `b`; the free count is issued minus in use,
      negative when the report shows more in use than issued. */
  function RowOf(b: Block, u: UserRec): (r: Row)
    ensures r.license == b.name && r.totalIssued == b.issued && r.totalInUse == b.inUse
    ensures r.user == u.user && r.station == u.station && r.details == u.details
    ensures r.totalFree + r.totalInUse == r.totalIssued
    ensures r.totalFree < 0 <==> b.inUse > b.issued
  {
    Row(b.name, u.user, u.station, b.issued, b.inUse, b.issued - b.inUse, u.details)
  }

  /** The rows of one block: one per user, in user order. */
  function BlockRows(b: Block): (r: seq<Row>)
    ensures |r| == |b.users|
    ensures forall k :: 0 <= k < |r| ==> r[k] == RowOf(b, b.users[k])
  {
    seq(|b.users|, k requires 0 <= k < |b.users| => RowOf(b, b.users[k]))
  }

  /** The number of users over all blocks. */
  function TotalUsers(blocks: seq<Block>): nat
  {
    if blocks == [] then 0 else TotalUsers(blocks[..|blocks| - 1]) + |blocks[|blocks| - 1].users|
  }

  /** The table of `create_dataframe`: the rows of each block, block after block.
      Every row's free count is its issued count minus its in-use count. */
  function Rows(blocks: seq<Block>): (r: seq<Row>)
    ensures |r| == TotalUsers(blocks)
    ensures forall n :: 0 <= n < |r| ==> r[n].totalFree == r[n].totalIssued - r[n].totalInUse
  {
    if blocks == [] then [] else Rows(blocks[..|blocks| - 1]) + BlockRows(blocks[|blocks| - 1])
  }

  /** `create_dataframe`: two nested loops appending one row per user. */
  method CreateDataframe(licenseInfo: seq<Block>) returns (rows: seq<Row>)
    ensures rows == Rows(licenseInfo)
  {
    rows := [];
    for i := 0 to |licenseInfo|
      invariant rows == Rows(licenseInfo[..i])
    {
      var license := licenseInfo[i];
      var totalIssued := license.issued;
      var totalInUse := license.inUse;
      var totalFree := totalIssued - totalInUse;
      ghost var before := rows;
      for j := 0 to |license.users|
        invariant rows == before + BlockRows(license)[..j]
      {
        var user := license.users[j];
        rows := rows + [Row(license.name, user.user, user.station, totalIssued, totalInUse, totalFree, user.details)];
        assert BlockRows(license)[..j + 1] == BlockRows(license)[..j] + [RowOf(license, user)];
      }
      assert BlockRows(license)[..|license.users|] == BlockRows(license);
      assert licenseInfo[..i + 1][..i] == licenseInfo[..i];
    }
    assert licenseInfo[..|licenseInfo|] == licenseInfo;
  }

  /** The table of two runs of blocks is the two tables one after the other. */
  lemma {:induction false} RowsAppend(a: seq<Block>, b: seq<Block>)
    ensures Rows(a + b) == Rows(a) + Rows(b)
    ensures TotalUsers(a + b) == TotalUsers(a) + TotalUsers(b)
    decreases |b|
  {
    if b == [] {
      assert a + b == a;
    } else {
      var ab := a + b;
      assert ab[..|ab| - 1] == a + b[..|b| - 1];
      assert ab[|ab| - 1] == b[|b| - 1];
      var init, last := b[..|b| - 1], b[|b| - 1];
      RowsAppend(a, init);
      calc {
        Rows(ab);
        Rows(a + init) + BlockRows(last);
        (Rows(a) + Rows(init)) + BlockRows(last);
        { AppendAssoc(Rows(a), Rows(init), BlockRows(last)); }
        Rows(a) + (Rows(init) + BlockRows(last));
        Rows(a) + Rows(b);
      }
    }
  }

  /** One row per user, in order: user `k` of block `i` is row
      `TotalUsers(blocks[..i]) + k`, with that block's name and counts. */
  lemma {:induction false} RowOfUser(blocks: seq<Block>, i: nat, k: nat)
    requires i < |blocks| && k < |blocks[i].users|
    ensures TotalUsers(blocks[..i]) + k < |Rows(blocks)|
    ensures Rows(blocks)[TotalUsers(blocks[..i]) + k] == RowOf(blocks[i], blocks[i].users[k])
    decreases |blocks|
  {
    var init := blocks[..|blocks| - 1];
    if i < |blocks| - 1 {
      assert init[..i] == blocks[..i] && init[i] == blocks[i];
      RowOfUser(init, i, k);
    } else {
      assert blocks[..i] == init;
    }
  }

  /** Blocks without users add no rows. */
  lemma {:induction false} UserlessBlocksAddNoRows(blocks: seq<Block>)
    requires forall i :: 0 <= i < |blocks| ==> blocks[i].users == []
    ensures Rows(blocks) == []
    decreases |blocks|
  {
    if blocks != [] {
      UserlessBlocksAddNoRows(blocks[..|blocks| - 1]);
    }
  }
}
