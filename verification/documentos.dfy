/**
 * Uploaded documents of a student (report cards or health papers) and the
 * local list update after a removal: `docs.filter(d => d._id !== id)`.
 */
module Documentos {
  import opened Wrappers
  import Seqs

  datatype Documento = Documento(mongoId: Option<string>, nomeArquivo: string)

  /** The list after removing the document with id `id`. */
  function Removed(docs: seq<Documento>, id: string): (r: seq<Documento>)
    ensures forall i :: 0 <= i < |r| ==> r[i].mongoId != Some(id) && r[i] in docs
    ensures forall i :: 0 <= i < |docs| && docs[i].mongoId != Some(id) ==> docs[i] in r
  {
    Seqs.Filter(docs, (d: Documento) => d.mongoId != Some(id))
  }

  /** Removing keeps the other documents in order, and removing the same id again changes nothing. */
  lemma RemovedKeepsOrder(docs: seq<Documento>, id: string)
    ensures Seqs.Subsequence(Removed(docs, id), docs)
    ensures Removed(Removed(docs, id), id) == Removed(docs, id)
  {
    var keep := (d: Documento) => d.mongoId != Some(id);
    Seqs.FilterIsSubsequence(docs, keep);
    Seqs.FilterKeepsAll(Seqs.Filter(docs, keep), keep);
  }

  /** The document list of a tab. */
  class DocumentList {
    var documentos: seq<Documento>

    constructor ()
      ensures documentos == []
    {
      documentos := [];
    }

    /** The list as the server returned it. */
    method OnLoaded(data: seq<Documento>)
      modifies this
      ensures documentos == data
    {
      documentos := data;
    }

    /**
     * `handleRemover`: nothing without confirmation; after a successful
     * delete request the local list drops exactly that id; a failed request
     * leaves it as it was.
     */
    method HandleRemover(id: string, confirmed: bool, deleteSucceeded: bool) returns (requested: bool)
      modifies this
      ensures requested == confirmed
      ensures confirmed && deleteSucceeded ==> documentos == Removed(old(documentos), id)
      ensures !(confirmed && deleteSucceeded) ==> documentos == old(documentos)
    {
      if !confirmed {
        return false;
      }
      requested := true;
      if deleteSucceeded {
        documentos := Removed(documentos, id);
      }
    }
  }
}
