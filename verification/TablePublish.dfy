/** The concrete table format as the engine uses it: whole tables written and read back. */
module TablePublish {
  import opened RaftTypes
  import opened LsmTypes
  import opened Bloom
  import SSTable

  function TableReader(crc: SSTable.Crc, hash: Hash): seq<Byte> -> Option<seq<Version>> {
    file => SSTable.ReadFile(crc, hash, file)
  }

  /** Every record through the writer in order; refused only where the format has no room. */
  method BuildTable(crc: SSTable.Crc, hash: Hash, content: seq<Version>) returns (r: Option<seq<Byte>>)
    requires Ascends(content) && forall v :: v in content ==> v.seq_ <= MAX_UINT64
    ensures r.Some? ==> SSTable.ReadFile(crc, hash, r.value) == Some(content) && |r.value| <= MAX_INT64
    ensures r.None? ==> SSTable.TooBig(crc, content)
  {
    hide SSTable.ReadFile, KeyLess, SSTable.Laid, SSTable.FileBytes, SSTable.Oversized;
    var writer := new SSTable.SSTableWriter();
    for i := 0 to |content|
      invariant fresh(writer) && writer.Valid() && !writer.closed && writer.entries == content[..i]
    {
      var ok := writer.Add(content[i]);
    }
    assert content[..|content|] == content;
    var file, _, _ := writer.Finish(crc, hash);
    if file.None? || |file.value| > MAX_INT64 { return None; }
    return file;
  }
}
