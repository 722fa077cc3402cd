/** The download request: token, blob, and the find it credits. */
module ObjectStore {
  import opened Balloons
  import opened Tokens
  import opened RecordStore

  datatype Status = Served | Forbidden | Missing

  method Download(ds: DataStore, toks: ObjectTokens, tok: string, id: Id, hasBlob: bool)
      returns (status: Status)
    requires ds.Valid() && toks.Valid()
    modifies toks`clock, ds`found
    ensures ds.Valid() && toks.Valid() && old(toks.clock) <= toks.clock
    ensures status == if tok !in toks.issued || toks.issued[tok].id != id || toks.clock > toks.issued[tok].expires
                         || toks.issued[tok].upload then Forbidden
                      else if hasBlob then Served else Missing
    ensures var pid := if tok in toks.issued then toks.issued[tok].requester else 0;
            var was := old(ds.found);
            ds.found == if status == Served && pid != 0 && id in ds.View() && ds.View()[id].post.owner != pid
                        then was[pid := (if pid in was then was[pid] else {}) + {id}]
                        else was
  {
    var info := toks.Check(tok, id);
    if info.None? || info.value.upload {
      return Forbidden;
    }
    if !hasBlob {
      return Missing;
    }
    if info.value.requester != 0 {
      ds.CreditDownload(id, info.value.requester);
    }
    status := Served;
  }
}
