/** The extension `fileToBase64` reports for a picked file:
    `file.name.split(".").pop() || "jpg"`. Reading the file and encoding it
    in base64 are not modelled. */
module FileToBase64 {
  import opened JsStrings

  /** The text after the last dot of the name, or "jpg" when that is empty. */
  function Extension(name: string): (ext: string)
    ensures ext != ""
    ensures '.' !in ext
  {
    var last := LastPiece(name, '.');
    LastPieceIsAfterLastSeparator(name, '.');
    if last == "" then "jpg" else last
  }

  /** A non-empty extension ends the name right after its last dot (or is
      the whole name when it has none); otherwise the name is empty or ends
      with a dot and the extension is "jpg". */
  lemma ExtensionSpec(name: string)
    ensures '.' !in name && name != "" ==> Extension(name) == name
    ensures name == "" || name[|name| - 1] == '.' ==> Extension(name) == "jpg"
    ensures name != "" && name[|name| - 1] != '.' ==>
      var ext := Extension(name);
      && |ext| <= |name| && name[|name| - |ext|..] == ext
      && (|ext| < |name| ==> name[|name| - |ext| - 1] == '.')
  {
    LastPieceIsAfterLastSeparator(name, '.');
    if '.' !in name {
      SplitNoSeparator(name, '.');
    }
  }

  /** Whatever precedes it, a dot-free non-empty tail after a dot is the extension. */
  lemma ExtensionAfterLastDot(front: string, tail: string)
    requires '.' !in tail && tail != ""
    ensures Extension(front + ['.'] + tail) == tail
  {
    var name := front + ['.'] + tail;
    LastPieceIsAfterLastSeparator(name, '.');
    var ext := Extension(name);
    assert name[|name| - |tail|..] == tail;
    assert name[|name| - |tail| - 1] == '.';
  }
}
