/** Choosing a loader for a document from its file suffix
    (backend/document_loaders.py). Paths are text; the suffix follows
    pathlib's rule and is compared case-insensitively against the
    supported extensions. The loader bodies (PDF, DOCX, PPTX readers) are
    foreign code and enter as a parameter. */
module DocumentLoaders {
  import opened Common

  const SupportedExtensions: seq<string> := [".txt", ".md", ".pdf", ".docx", ".pptx"]

  datatype Loader = PdfLoader | DocxLoader | PptxLoader | TextLoader

  /** The loader table, keyed by lower-case suffix. */
  const Loaders: map<string, Loader> := map[
    ".pdf" := PdfLoader,
    ".docx" := DocxLoader,
    ".pptx" := PptxLoader,
    ".txt" := TextLoader,
    ".md" := TextLoader
  ]

  datatype LoadError = UnsupportedDocument(suffix: string)

  /** The last path component: everything after the last '/'. */
  function BaseName(path: string): string
  {
    if path == [] || path[|path| - 1] == '/' then []
    else BaseName(path[..|path| - 1]) + [path[|path| - 1]]
  }

  lemma {:induction false} BaseNameShape(path: string)
    ensures var name := BaseName(path);
      && |name| <= |path| && name == path[|path| - |name|..]
      && (forall i :: 0 <= i < |name| ==> name[i] != '/')
      && (|name| == |path| || path[|path| - |name| - 1] == '/')
  {
    if path != [] && path[|path| - 1] != '/' {
      var init := path[..|path| - 1];
      BaseNameShape(init);
      var n := BaseName(init);
      assert BaseName(path) == n + [path[|path| - 1]];
      assert path[|path| - |n| - 1..] == init[|init| - |n|..] + [path[|path| - 1]];
      if |n| < |init| {
        assert path[|path| - |n| - 2] == init[|init| - |n| - 1];
      }
    }
  }

  /** Python's `str.rfind(c)`: the last index holding `c`, or -1. */
  function RFind(s: string, c: char): (i: int)
    ensures -1 <= i < |s|
  {
    if s == [] then -1
    else if s[|s| - 1] == c then |s| - 1
    else RFind(s[..|s| - 1], c)
  }

  lemma {:induction false} RFindLast(s: string, c: char)
    ensures var i := RFind(s, c);
      && (i >= 0 ==> s[i] == c)
      && (forall k :: i < k < |s| ==> s[k] != c)
  {
    if s != [] && s[|s| - 1] != c {
      RFindLast(s[..|s| - 1], c);
    }
  }

  /** pathlib's `Path.suffix`: from the last '.' of the name on, provided
      that dot is neither the first nor the last character of the name. */
  function Suffix(path: string): string
  {
    var name := BaseName(path);
    var i := RFind(name, '.');
    if 0 < i < |name| - 1 then name[i..] else []
  }

  /** A suffix is empty or a dot followed by at least one character that
      is neither a dot nor a separator, and it ends the path. */
  lemma SuffixShape(path: string)
    ensures var s := Suffix(path);
      && (s == [] || (s[0] == '.' && |s| >= 2))
      && |s| <= |path| && s == path[|path| - |s|..]
      && forall i :: 0 < i < |s| ==> s[i] != '.' && s[i] != '/'
  {
    var name := BaseName(path);
    BaseNameShape(path);
    RFindLast(name, '.');
    var i := RFind(name, '.');
    if 0 < i < |name| - 1 {
      var s := name[i..];
      forall k | 0 < k < |s| ensures s[k] != '.' && s[k] != '/' {
        assert s[k] == name[i + k];
      }
    }
  }

  function LowerChar(c: char): char
  {
    if 'A' <= c <= 'Z' then (c as int + 32) as char else c
  }

  /** `str.lower()` on the ASCII letters. */
  function Lower(s: string): (r: string)
    ensures |r| == |s|
  {
    if s == [] then [] else Lower(s[..|s| - 1]) + [LowerChar(s[|s| - 1])]
  }

  lemma {:induction false} LowerAt(s: string)
    ensures forall i :: 0 <= i < |s| ==> Lower(s)[i] == LowerChar(s[i])
  {
    if s != [] {
      LowerAt(s[..|s| - 1]);
    }
  }

  predicate IsSupported(path: string)
  {
    Lower(Suffix(path)) in SupportedExtensions
  }

  /** Two paths that differ only in the case of their letters. */
  predicate SameUpToCase(p: string, q: string)
  {
    |p| == |q| && forall i :: 0 <= i < |p| ==> LowerChar(p[i]) == LowerChar(q[i])
  }

  lemma {:induction false} BaseNameUpToCase(p: string, q: string)
    requires SameUpToCase(p, q)
    ensures SameUpToCase(BaseName(p), BaseName(q))
  {
    if p != [] && p[|p| - 1] != '/' {
      assert LowerChar(q[|q| - 1]) == LowerChar(p[|p| - 1]);
      BaseNameUpToCase(p[..|p| - 1], q[..|q| - 1]);
    }
  }

  lemma {:induction false} RFindUpToCase(p: string, q: string)
    requires SameUpToCase(p, q)
    ensures RFind(p, '.') == RFind(q, '.')
  {
    if p != [] {
      assert LowerChar(q[|q| - 1]) == LowerChar(p[|p| - 1]);
      RFindUpToCase(p[..|p| - 1], q[..|q| - 1]);
    }
  }

  lemma LowerUpToCase(p: string, q: string)
    requires SameUpToCase(p, q)
    ensures Lower(p) == Lower(q)
  {
    LowerAt(p);
    LowerAt(q);
  }

  lemma SuffixUpToCase(p: string, q: string)
    requires SameUpToCase(p, q)
    ensures SameUpToCase(Suffix(p), Suffix(q))
  {
    BaseNameUpToCase(p, q);
    var np, nq := BaseName(p), BaseName(q);
    RFindUpToCase(np, nq);
    var i := RFind(np, '.');
    if 0 < i < |np| - 1 {
      forall k | 0 <= k < |np| - i ensures LowerChar(np[i..][k]) == LowerChar(nq[i..][k]) {
        assert np[i..][k] == np[i + k] && nq[i..][k] == nq[i + k];
      }
    }
  }

  /** Suffix matching ignores letter case: `notes.PDF` and `notes.pdf` are
      both accepted or both refused. */
  lemma SupportedIgnoresCase(p: string, q: string)
    requires SameUpToCase(p, q)
    ensures IsSupported(p) <==> IsSupported(q)
  {
    SuffixUpToCase(p, q);
    LowerUpToCase(Suffix(p), Suffix(q));
  }

  /** Every supported extension has a loader, so the dispatch lookup
      cannot fail. */
  lemma LoaderTableCoversSupported(e: string)
    requires e in SupportedExtensions
    ensures e in Loaders
    ensures (e == ".txt" || e == ".md") <==> Loaders[e] == TextLoader
  {
  }

  /** `iter_supported_files`: the supported paths, in their given order. */
  function IterSupportedFiles(paths: seq<string>): (r: seq<string>)
    ensures |r| <= |paths|
    ensures forall i :: 0 <= i < |r| ==> IsSupported(r[i])
  {
    if paths == [] then []
    else if IsSupported(paths[|paths| - 1]) then IterSupportedFiles(paths[..|paths| - 1]) + [paths[|paths| - 1]]
    else IterSupportedFiles(paths[..|paths| - 1])
  }

  /** Exactly the supported paths are kept. */
  lemma {:induction false} IterSupportedFilesMembers(paths: seq<string>)
    ensures forall p :: p in IterSupportedFiles(paths) <==> p in paths && IsSupported(p)
  {
    if paths != [] {
      var init := paths[..|paths| - 1];
      var last := paths[|paths| - 1];
      IterSupportedFilesMembers(init);
      assert paths == init + [last];
      if IsSupported(last) {
        assert IterSupportedFiles(paths) == IterSupportedFiles(init) + [last];
      } else {
        assert IterSupportedFiles(paths) == IterSupportedFiles(init);
      }
    }
  }

  /** The filter keeps order: the supported files of a concatenation are
      those of each part, one after the other. */
  lemma {:induction false} IterSupportedFilesAppend(a: seq<string>, b: seq<string>)
    ensures IterSupportedFiles(a + b) == IterSupportedFiles(a) + IterSupportedFiles(b)
    decreases |b|
  {
    if b == [] {
      assert a + b == a;
    } else {
      var b' := b[..|b| - 1];
      assert (a + b)[..|a + b| - 1] == a + b';
      IterSupportedFilesAppend(a, b');
    }
  }

  /** `load_document`: refuse an unsupported suffix before any loader runs,
      otherwise run the loader the table names for it. */
  function LoadDocument(path: string, read: (Loader, string) -> string): (r: Result<string, LoadError>)
    ensures r.Err? <==> !IsSupported(path)
    ensures r.Err? ==> r.error == UnsupportedDocument(Lower(Suffix(path)))
    ensures r.Ok? ==> r.value == read(Loaders[Lower(Suffix(path))], path)
  {
    var suffix := Lower(Suffix(path));
    if suffix !in SupportedExtensions then Err(UnsupportedDocument(suffix))
    else Ok(read(Loaders[suffix], path))
  }
}
