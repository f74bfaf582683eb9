/** Document ingestion (backend/pipeline.py): keep the supported files,
    load each, drop the blank ones, chunk the rest and tag every chunk with
    its source, its position in its document and its document's position.
    The embedder and the vector store only receive the result, so the model
    returns what would be handed to them. The chunking parameters come from
    configuration (800 words with 200 of overlap unless overridden) and are
    parameters here. */
module Pipeline {
  import opened Common
  import opened Chunkers
  import opened DocumentLoaders

  datatype Document = Document(source: string, text: string)

  datatype ChunkMetadata = ChunkMetadata(source: string, chunkIndex: string, documentIndex: string)

  datatype IngestStats = IngestStats(
    documentsIngested: nat,
    chunksCreated: nat,
    unsupportedFiles: nat,
    emptyDocuments: nat)

  datatype Ingested = Ingested(stats: IngestStats, chunks: seq<string>, metadatas: seq<ChunkMetadata>)

  datatype IngestError =
    | NoSupportedFiles          // "No supported files provided for ingestion."
    | Chunking(e: ChunkError)   // the chunker refused the configured parameters
    | NoTextExtracted           // "No text extracted from the provided files."

  predicate AllSupported(files: seq<string>)
  {
    forall i :: 0 <= i < |files| ==> IsSupported(files[i])
  }

  /** The text the loader table yields for a supported file. */
  function TextOf(path: string, read: (Loader, string) -> string): string
    requires IsSupported(path)
  {
    read(Loaders[Lower(Suffix(path))], path)
  }

  /** The loaded documents whose text is not blank (whose `strip()` is
      non-empty), in file order. */
  function LoadedDocuments(files: seq<string>, read: (Loader, string) -> string): (docs: seq<Document>)
    requires AllSupported(files)
    ensures |docs| <= |files|
  {
    if files == [] then []
    else
      var prev := LoadedDocuments(files[..|files| - 1], read);
      var path := files[|files| - 1];
      var text := TextOf(path, read);
      if !IsBlank(text) then prev + [Document(path, text)] else prev
  }

  /** Every kept document has a non-blank text and comes from one of the
      files. */
  lemma {:induction false} LoadedDocumentsNonBlank(files: seq<string>, read: (Loader, string) -> string, i: nat)
    requires AllSupported(files) && i < |LoadedDocuments(files, read)|
    ensures var doc := LoadedDocuments(files, read)[i];
      !IsBlank(doc.text) && doc.source in files && doc.text == TextOf(doc.source, read)
  {
    var n := |files| - 1;
    var prev := LoadedDocuments(files[..n], read);
    var text := TextOf(files[n], read);
    assert LoadedDocuments(files, read) == if !IsBlank(text) then prev + [Document(files[n], text)] else prev;
    if i < |prev| {
      LoadedDocumentsNonBlank(files[..n], read, i);
      assert prev[i].source in files[..n];
    }
  }

  function Texts(docs: seq<Document>): (texts: seq<string>)
    ensures |texts| == |docs| && forall i :: 0 <= i < |docs| ==> texts[i] == docs[i].text
  {
    if docs == [] then [] else Texts(docs[..|docs| - 1]) + [docs[|docs| - 1].text]
  }

  /** The chunk list of each text, one list per text. */
  function ChunkLists(texts: seq<string>, chunkSize: nat, overlap: nat): (lists: seq<seq<string>>)
    requires overlap < chunkSize
    ensures |lists| == |texts|
    ensures forall d :: 0 <= d < |texts| ==> lists[d] == Chunks(texts[d], chunkSize, overlap)
  {
    seq(|texts|, d requires 0 <= d < |texts| => Chunks(texts[d], chunkSize, overlap))
  }

  function Flatten(lists: seq<seq<string>>): seq<string>
  {
    if lists == [] then [] else Flatten(lists[..|lists| - 1]) + lists[|lists| - 1]
  }

  /** The pipeline's chunk list is what `chunk_documents` gives for the
      kept texts. */
  lemma {:induction false} FlattenIsChunkDocuments(texts: seq<string>, chunkSize: nat, overlap: nat)
    requires overlap < chunkSize
    ensures Flatten(ChunkLists(texts, chunkSize, overlap)) == AllChunks(texts, chunkSize, overlap)
  {
    if texts != [] {
      var n := |texts| - 1;
      FlattenIsChunkDocuments(texts[..n], chunkSize, overlap);
      assert ChunkLists(texts, chunkSize, overlap)[..n] == ChunkLists(texts[..n], chunkSize, overlap);
    }
  }

  /** The metadata of the `count` chunks of document number `d`. */
  function MetadataFor(source: string, count: nat, d: nat): (ms: seq<ChunkMetadata>)
    ensures |ms| == count
    ensures forall j :: 0 <= j < count ==> ms[j] == ChunkMetadata(source, NatToString(j), NatToString(d))
  {
    if count == 0 then [] else MetadataFor(source, count - 1, d) + [ChunkMetadata(source, NatToString(count - 1), NatToString(d))]
  }

  /** The metadata of every chunk of every document, in chunk order, for
      the per-document chunk lists `lists`. */
  function Metadatas(docs: seq<Document>, lists: seq<seq<string>>): seq<ChunkMetadata>
    requires |lists| == |docs|
  {
    if docs == [] then []
    else
      var n := |docs| - 1;
      Metadatas(docs[..n], lists[..n]) + MetadataFor(docs[n].source, |lists[n]|, n)
  }

  /** There is one metadata entry per chunk. */
  lemma {:induction false} MetadataMatchesChunks(docs: seq<Document>, lists: seq<seq<string>>)
    requires |lists| == |docs|
    ensures |Metadatas(docs, lists)| == |Flatten(lists)|
  {
    if docs != [] {
      MetadataMatchesChunks(docs[..|docs| - 1], lists[..|docs| - 1]);
    }
  }

  /** Element `j` of list `d` sits at position `|Flatten(lists[..d])| + j`
      of the flattened list. */
  lemma {:induction false} FlattenPlacement(lists: seq<seq<string>>, d: nat, j: nat)
    requires d < |lists| && j < |lists[d]|
    ensures var off := |Flatten(lists[..d])|;
      off + j < |Flatten(lists)| && Flatten(lists)[off + j] == lists[d][j]
  {
    var n := |lists| - 1;
    if d < n {
      assert lists[..n][..d] == lists[..d];
      FlattenPlacement(lists[..n], d, j);
    } else {
      assert lists[..n] == lists[..d];
    }
  }

  lemma {:induction false} MetadataPlacement(docs: seq<Document>, lists: seq<seq<string>>, d: nat, j: nat)
    requires |lists| == |docs| && d < |docs| && j < |lists[d]|
    ensures var off := |Metadatas(docs[..d], lists[..d])|;
      && off + j < |Metadatas(docs, lists)|
      && Metadatas(docs, lists)[off + j] == ChunkMetadata(docs[d].source, NatToString(j), NatToString(d))
  {
    var n := |docs| - 1;
    var prev := Metadatas(docs[..n], lists[..n]);
    assert Metadatas(docs, lists) == prev + MetadataFor(docs[n].source, |lists[n]|, n);
    if d < n {
      assert docs[..n][..d] == docs[..d];
      assert lists[..n][..d] == lists[..d];
      MetadataPlacement(docs[..n], lists[..n], d, j);
      assert Metadatas(docs, lists)[|Metadatas(docs[..d], lists[..d])| + j] == prev[|Metadatas(docs[..d], lists[..d])| + j];
    } else {
      assert docs[..n] == docs[..d];
      assert lists[..n] == lists[..d];
    }
  }

  /** Chunk `j` of document `d` and its metadata sit at the same position
      of the two lists passed on to the store, and that metadata names the
      document's source, chunk index `j` (counted afresh in each document)
      and document index `d`. */
  lemma ChunkMetadataPlacement(docs: seq<Document>, lists: seq<seq<string>>, d: nat, j: nat)
    requires |lists| == |docs| && d < |docs| && j < |lists[d]|
    ensures var off := |Flatten(lists[..d])|;
      && off + j < |Flatten(lists)| == |Metadatas(docs, lists)|
      && Flatten(lists)[off + j] == lists[d][j]
      && Metadatas(docs, lists)[off + j] == ChunkMetadata(docs[d].source, NatToString(j), NatToString(d))
  {
    FlattenPlacement(lists, d, j);
    MetadataPlacement(docs, lists, d, j);
    MetadataMatchesChunks(docs[..d], lists[..d]);
    MetadataMatchesChunks(docs, lists);
  }

  /** The loading loop: blank documents are counted, the others kept. */
  method LoadNonBlank(files: seq<string>, read: (Loader, string) -> string)
    returns (docs: seq<Document>, skipped: nat)
    requires AllSupported(files)
    ensures docs == LoadedDocuments(files, read)
    ensures |docs| + skipped == |files|
  {
    docs, skipped := [], 0;
    for i := 0 to |files|
      invariant docs == LoadedDocuments(files[..i], read)
      invariant |docs| + skipped == i
    {
      assert files[..i + 1][..i] == files[..i];
      var loaded := LoadDocument(files[i], read);
      var text := loaded.value;
      StripEmptyIffBlank(text);
      if Strip(text) != [] {
        docs := docs + [Document(files[i], text)];
      } else {
        skipped := skipped + 1;
      }
    }
    assert files[..|files|] == files;
  }

  lemma ChunkAllStep(docs: seq<Document>, d: nat, lists: seq<seq<string>>, docChunks: seq<string>, chunkSize: int, overlap: int)
    requires d < |docs| && |lists| == d
    ensures Flatten(lists + [docChunks]) == Flatten(lists) + docChunks
    ensures Metadatas(docs[..d + 1], lists + [docChunks])
         == Metadatas(docs[..d], lists) + MetadataFor(docs[d].source, |docChunks|, d)
    ensures 0 <= overlap < chunkSize && lists == ChunkLists(Texts(docs[..d]), chunkSize, overlap)
            && docChunks == Chunks(docs[d].text, chunkSize, overlap)
        ==> lists + [docChunks] == ChunkLists(Texts(docs[..d + 1]), chunkSize, overlap)
  {
    assert docs[..d + 1][..d] == docs[..d];
    assert (lists + [docChunks])[..d] == lists;
    assert Texts(docs[..d + 1])[..d] == Texts(docs[..d]);
  }

  /** The inner loop: append one document's chunks and, for each, a copy
      of the document's metadata with its chunk and document index. */
  method AppendDocumentChunks(chunks: seq<string>, metas: seq<ChunkMetadata>, docChunks: seq<string>, source: string, d: nat)
    returns (chunks': seq<string>, metas': seq<ChunkMetadata>)
    ensures chunks' == chunks + docChunks
    ensures metas' == metas + MetadataFor(source, |docChunks|, d)
  {
    chunks', metas' := chunks, metas;
    for j := 0 to |docChunks|
      invariant chunks' == chunks + docChunks[..j]
      invariant metas' == metas + MetadataFor(source, j, d)
    {
      assert docChunks[..j + 1] == docChunks[..j] + [docChunks[j]];
      chunks' := chunks' + [docChunks[j]];
      metas' := metas' + [ChunkMetadata(source, NatToString(j), NatToString(d))];
    }
    assert docChunks[..|docChunks|] == docChunks;
  }

  /** The chunking loop: the chunks of every document, with their
      metadata. The chunker's parameter check surfaces on the first
      document, so it is never made when there is no document. */
  method ChunkAll(docs: seq<Document>, chunkSize: int, overlap: int)
    returns (r: Result<(seq<string>, seq<ChunkMetadata>), ChunkError>)
    ensures r.Err? <==> docs != [] && ParameterError(chunkSize, overlap).Some?
    ensures r.Err? ==> r.error == ParameterError(chunkSize, overlap).value
    ensures r.Ok? && docs != [] ==> 0 <= overlap < chunkSize
    ensures r.Ok? && docs == [] ==> r.value == ([], [])
    ensures r.Ok? && 0 <= overlap < chunkSize ==>
      var lists := ChunkLists(Texts(docs), chunkSize, overlap);
      r.value == (Flatten(lists), Metadatas(docs, lists))
  {
    var chunks: seq<string> := [];
    var metas: seq<ChunkMetadata> := [];
    ghost var lists: seq<seq<string>> := [];
    for d := 0 to |docs|
      invariant d > 0 ==> 0 <= overlap < chunkSize
      invariant d == 0 ==> chunks == [] && metas == []
      invariant |lists| == d
      invariant 0 <= overlap < chunkSize ==> lists == ChunkLists(Texts(docs[..d]), chunkSize, overlap)
      invariant chunks == Flatten(lists) && metas == Metadatas(docs[..d], lists)
    {
      var part := SlidingWindowChunk(docs[d].text, chunkSize, overlap);
      if part.Err? {
        return Err(part.error);
      }
      var docChunks := part.value;
      chunks, metas := AppendDocumentChunks(chunks, metas, docChunks, docs[d].source, d);
      ChunkAllStep(docs, d, lists, docChunks, chunkSize, overlap);
      lists := lists + [docChunks];
    }
    assert docs[..|docs|] == docs;
    return Ok((chunks, metas));
  }

  /** `ingest_files`. */
  method IngestFiles(paths: seq<string>, read: (Loader, string) -> string, chunkSize: int, overlap: int)
    returns (r: Result<Ingested, IngestError>)
    ensures var supported := IterSupportedFiles(paths);
      && (r == Err(NoSupportedFiles) <==> supported == [])
      && (supported != [] ==>
            var docs := LoadedDocuments(supported, read);
            && (r.Err? && r.error.Chunking? <==> docs != [] && ParameterError(chunkSize, overlap).Some?)
            && (r.Ok? ==>
                  && 0 <= overlap < chunkSize
                  && r.value.stats.unsupportedFiles == |paths| - |supported|
                  && r.value.stats.documentsIngested == |docs|
                  && r.value.stats.documentsIngested + r.value.stats.emptyDocuments == |supported|
                  && r.value.chunks == Flatten(ChunkLists(Texts(docs), chunkSize, overlap))
                  && r.value.metadatas == Metadatas(docs, ChunkLists(Texts(docs), chunkSize, overlap))
                  && r.value.stats.chunksCreated == |r.value.chunks| > 0))
    ensures r == Err(NoTextExtracted) ==>
      var docs := LoadedDocuments(IterSupportedFiles(paths), read);
      docs == [] || (0 <= overlap < chunkSize && Flatten(ChunkLists(Texts(docs), chunkSize, overlap)) == [])
  {
    var supported := IterSupportedFiles(paths);
    var unsupported := |paths| - |supported|;
    if supported == [] {
      return Err(NoSupportedFiles);
    }
    var docs, skipped := LoadNonBlank(supported, read);
    var chunked := ChunkAll(docs, chunkSize, overlap);
    if chunked.Err? {
      return Err(Chunking(chunked.error));
    }
    var (chunks, metas) := chunked.value;
    if chunks == [] {
      return Err(NoTextExtracted);
    }
    var stats := IngestStats(|docs|, |chunks|, unsupported, skipped);
    return Ok(Ingested(stats, chunks, metas));
  }
}
