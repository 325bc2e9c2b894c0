/**
 * The static-resource cache (src/cache.js): the QRIS image read from disk once and kept, the
 * saved QRIS catalog template, and the search for a product message in an incoming message.
 * A file on disk is an input of the operation that reads it; a write of the template file is
 * recorded, and whether it succeeds is an input.
 */
module Cache {
  import opened Wrappers
  import opened Messages

  /** The bytes of `qris.png`. */
  type Bytes = seq<bv8>

  /** The saved-template file as `loadQrisTemplate` finds it: absent, unreadable or unparsable, or parsed. */
  datatype TemplateFile = Absent | Unreadable | Holds(value: Option<Content>)

  /** `messageObj?.extendedTextMessage?.contextInfo?.quotedMessage`. */
  function Quoted(m: Content): Option<Content> {
    if m.extendedText.Some? && m.extendedText.value.contextInfo.Some? then
      m.extendedText.value.contextInfo.value.quotedMessage
    else None
  }

  /**
   * findProductMessageAny: the message itself when it carries a product message, else the quoted
   * message when that one does, else nothing.
   */
  function FindProductMessageAny(m: Option<Content>): (wrapper: Option<Content>)
    ensures wrapper.Some? ==> wrapper.value.hasProductMessage
    ensures wrapper.Some? <==> m.Some? && (m.value.hasProductMessage || (Quoted(m.value).Some? && Quoted(m.value).value.hasProductMessage))
    ensures m.Some? && m.value.hasProductMessage ==> wrapper == m
    ensures m.Some? && !m.value.hasProductMessage ==> wrapper.None? || wrapper == Quoted(m.value)
  {
    if m.None? then None
    else if m.value.hasProductMessage then m
    else
      var quoted := Quoted(m.value);
      if quoted.Some? && quoted.value.hasProductMessage then quoted else None
  }

  /** Only the message and the message it quotes are searched: a product deeper in the quote chain is not found. */
  lemma QuoteSearchedOnce(inner: Content, outer: Content)
    requires inner.hasProductMessage && !outer.hasProductMessage
    requires Quoted(outer).Some? && !Quoted(outer).value.hasProductMessage && Quoted(Quoted(outer).value) == Some(inner)
    ensures FindProductMessageAny(Some(outer)).None?
  {
  }

  class QrisCache {
    /** `qrisImageBuffer`. */
    var imageBuffer: Option<Bytes>
    /** `qrisTemplate`. */
    var template: Option<Content>
    /** The templates written to the saved-template file, in order. */
    ghost var written: seq<Content>

    constructor ()
      ensures imageBuffer.None? && template.None? && written == []
    {
      imageBuffer := None;
      template := None;
      written := [];
    }

    /** getQrisTemplate: the template in memory, without reading the file again. */
    function GetQrisTemplate(): (t: Option<Content>)
      reads this
      ensures t == template
    {
      template
    }

    /**
     * getQrisImageBuffer: a cached buffer is returned without touching the disk; otherwise the file,
     * when it can be read, is cached and returned, and when it cannot, nothing is.
     */
    method GetQrisImageBuffer(imageFile: Option<Bytes>) returns (r: Option<Bytes>)
      modifies `imageBuffer
      ensures old(imageBuffer).Some? ==> r == old(imageBuffer) && imageBuffer == old(imageBuffer)
      ensures old(imageBuffer).None? ==> r == imageFile && imageBuffer == imageFile
    {
      if imageBuffer.Some? {
        return imageBuffer;
      }
      if imageFile.Some? {
        imageBuffer := imageFile;
        return imageBuffer;
      }
      return None;
    }

    /**
     * loadQrisTemplate: a missing or unreadable file leaves the cached template as it was and
     * yields nothing; a parsed file replaces it (a falsy value clears it) and is returned.
     */
    method LoadQrisTemplate(file: TemplateFile) returns (r: Option<Content>)
      modifies `template
      ensures file.Holds? ==> template == file.value && r == file.value
      ensures !file.Holds? ==> template == old(template) && r.None?
    {
      match file {
        case Absent => return None;
        case Unreadable => return None;
        case Holds(value) =>
          template := value;
          return template;
      }
    }

    /**
     * saveQrisTemplate: the file is written first; only when that succeeds does the cached copy
     * become the new template. A failed write throws before the cache changes.
     */
    method SaveQrisTemplate(m: Content, writeOk: bool) returns (ok: bool)
      modifies `template, `written
      ensures ok == writeOk
      ensures writeOk ==> GetQrisTemplate() == Some(m) && written == old(written) + [m]
      ensures !writeOk ==> template == old(template) && written == old(written)
    {
      if !writeOk {
        return false;
      }
      written := written + [m];
      template := Some(m);
      return true;
    }

    /** initCache: caches the image when the file can be read, then loads the template. */
    method InitCache(imageFile: Option<Bytes>, templateFile: TemplateFile)
      modifies this
      ensures imageBuffer == (if imageFile.Some? then imageFile else old(imageBuffer))
      ensures template == (if templateFile.Holds? then templateFile.value else old(template))
      ensures written == old(written)
    {
      if imageFile.Some? {
        imageBuffer := imageFile;
      }
      var _ := LoadQrisTemplate(templateFile);
    }
  }
}
