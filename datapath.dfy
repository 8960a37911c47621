/** DataPath: where a control property lives, as a bone name and a property name. */
module DataPaths {

  predicate QuoteFree(s: string) {
    forall i :: 0 <= i < |s| ==> s[i] != '"'
  }

  datatype DataPath = DataPath(boneName: string, propName: string) {

    function BoneDataPath(): string {
      "[\"" + boneName + "\"]"
    }

    function PropDataPath(): string {
      "[\"" + propName + "\"]"
    }

    /** The full path is the bone path followed by the property path. */
    function FullDataPath(): (r: string)
      ensures r == BoneDataPath() + PropDataPath()
    {
      "[\"" + boneName + "\"][\"" + propName + "\"]"
    }
  }

  /** A quote-free word is recovered from a text that follows it with a quote. */
  lemma QuoteDelimits(a: string, s: string, b: string, t: string)
    requires QuoteFree(a) && QuoteFree(b)
    requires a + ['"'] + s == b + ['"'] + t
    ensures a == b && s == t
  {
    var u, w := a + ['"'] + s, b + ['"'] + t;
    assert u[|a|] == '"' && w[|b|] == '"';
    assert forall k :: 0 <= k < |a| ==> u[k] == a[k];
    assert forall k :: 0 <= k < |b| ==> w[k] == b[k];
    assert |a| == |b|;
    assert a == u[..|a|] && b == w[..|b|];
    assert s == u[|a| + 1..] && t == w[|b| + 1..];
  }

  /** When bone names hold no quote, the full data path determines both names. */
  lemma DataPathDeterminesNames(d: DataPath, e: DataPath)
    requires QuoteFree(d.boneName) && QuoteFree(e.boneName)
    ensures d.FullDataPath() == e.FullDataPath() <==> d == e
  {
    if d.FullDataPath() == e.FullDataPath() {
      var pre := "[\"";
      var u := d.boneName + ['"'] + ("][\"" + d.propName + "\"]");
      var w := e.boneName + ['"'] + ("][\"" + e.propName + "\"]");
      assert d.FullDataPath() == pre + u;
      assert e.FullDataPath() == pre + w;
      assert u == (pre + u)[|pre|..] == (pre + w)[|pre|..] == w;
      QuoteDelimits(d.boneName, "][\"" + d.propName + "\"]", e.boneName, "][\"" + e.propName + "\"]");
      var s, t := "][\"" + d.propName + "\"]", "][\"" + e.propName + "\"]";
      assert d.propName == s[3..|s| - 2] && e.propName == t[3..|t| - 2];
    }
  }
}
