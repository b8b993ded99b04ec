/**
 * The sidebar's active-item rule: an item is highlighted when the current
 * pathname starts with the item's path, and the Docs item is also highlighted
 * on the home page `/`.
 */
module Sidebar {
  import opened Text

  const DocsPath: string := "/docs"
  const PrototypesPath: string := "/prototypes"

  /** `isActive(path)` for the current `pathname`. */
  predicate IsActive(pathname: string, path: string) {
    if path == DocsPath then pathname == "/" || StartsWith(pathname, DocsPath)
    else StartsWith(pathname, path)
  }

  /** Docs is active exactly on `/` and on paths beginning with `/docs`. */
  lemma DocsActiveIff(pathname: string)
    ensures IsActive(pathname, DocsPath) <==> pathname == "/" || StartsWith(pathname, "/docs")
  {
  }

  /** Any other item is active exactly when the pathname starts with its path. */
  lemma OtherActiveIff(pathname: string, path: string)
    requires path != DocsPath
    ensures IsActive(pathname, path) <==> StartsWith(pathname, path)
  {
  }

  /** On the home page Docs is highlighted and Prototypes is not. */
  lemma HomePage()
    ensures IsActive("/", DocsPath)
    ensures !IsActive("/", PrototypesPath)
  {
  }

  /** Matching is by string prefix, not by path segment. */
  lemma PrefixNotSegment()
    ensures IsActive("/docsfoo", DocsPath)
    ensures IsActive("/prototypes/counter", PrototypesPath)
    ensures IsActive("/prototypesx", PrototypesPath)
  {
    assert "/docsfoo"[..5] == "/docs";
    assert "/prototypes/counter"[..11] == "/prototypes";
    assert "/prototypesx"[..11] == "/prototypes";
  }

  /** The two navigation items are never highlighted together. */
  lemma NeverBothActive(pathname: string)
    ensures !(IsActive(pathname, DocsPath) && IsActive(pathname, PrototypesPath))
  {
    if StartsWith(pathname, PrototypesPath) {
      assert pathname[1] == PrototypesPath[1] == 'p';
      assert pathname != "/";
      if |pathname| >= 5 {
        assert pathname[..5][1] == 'p';
        assert DocsPath[1] == 'd';
      }
    }
  }
}
