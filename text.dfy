/**
 * Text components (AbstractText): each text may have a child and a next
 * text, and knows its parent, the text that holds it as child or next.
 */
module Texts {
  import opened Wrappers

  const SELF_AS_CHILD := "Cannot set self as child!"
  const CHILD_HAS_PARENT := "The given child Text already has a parent!"
  const SELF_AS_NEXT := "Cannot set self as next!"
  const NEXT_HAS_PARENT := "The given next Text already has a parent!"

  class Text {
    var parent: Text?
    var child: Text?
    var next: Text?

    constructor ()
      ensures parent == null && child == null && next == null
    {
      parent := null;
      child := null;
      next := null;
    }

    /** The child, if any, is another text whose parent is this one. */
    predicate ChildLinked()
      reads this, child
    {
      child != null ==> child != this && child.parent == this
    }

    /** The next text, if any, is another text whose parent is this one. */
    predicate NextLinked()
      reads this, next
    {
      next != null ==> next != this && next.parent == this
    }

    /**
     * setChild: rejects this text itself and a text that already has a
     * parent, changing nothing; otherwise makes the new child's parent this
     * text, detaches the previous child, and installs the new one (null
     * unsets the child).
     */
    method SetChild(newChild: Text?) returns (r: Outcome<string>)
      requires ChildLinked()
      modifies this, newChild, child
      ensures newChild == this ==> r == Fail(SELF_AS_CHILD)
      ensures newChild != null && newChild != this && old(newChild.parent) != null ==> r == Fail(CHILD_HAS_PARENT)
      ensures r.Pass? <==> newChild == null || (newChild != this && old(newChild.parent) == null)
      ensures r.Fail? ==> unchanged(this) && (newChild != null ==> unchanged(newChild)) && (old(child) != null ==> unchanged(old(child)))
      ensures r.Pass? ==> child == newChild && next == old(next) && parent == old(parent) && ChildLinked()
      ensures r.Pass? && newChild != null ==>
        newChild.parent == this && newChild.child == old(newChild.child) && newChild.next == old(newChild.next)
      ensures r.Pass? && old(child) != null ==>
        old(child).parent == null && old(child).child == old(child.child) && old(child).next == old(child.next)
    {
      if newChild != null {
        if newChild == this {
          return Fail(SELF_AS_CHILD);
        }
        if newChild.parent != null {
          return Fail(CHILD_HAS_PARENT);
        }
        newChild.parent := this;
      }
      if child != null {
        child.parent := null;
      }
      child := newChild;
      return Pass;
    }

    /** setNext: the same checks and relinking as SetChild, for the next text. */
    method SetNext(newNext: Text?) returns (r: Outcome<string>)
      requires NextLinked()
      modifies this, newNext, next
      ensures newNext == this ==> r == Fail(SELF_AS_NEXT)
      ensures newNext != null && newNext != this && old(newNext.parent) != null ==> r == Fail(NEXT_HAS_PARENT)
      ensures r.Pass? <==> newNext == null || (newNext != this && old(newNext.parent) == null)
      ensures r.Fail? ==> unchanged(this) && (newNext != null ==> unchanged(newNext)) && (old(next) != null ==> unchanged(old(next)))
      ensures r.Pass? ==> next == newNext && child == old(child) && parent == old(parent) && NextLinked()
      ensures r.Pass? && newNext != null ==>
        newNext.parent == this && newNext.child == old(newNext.child) && newNext.next == old(newNext.next)
      ensures r.Pass? && old(next) != null ==>
        old(next).parent == null && old(next).child == old(next.child) && old(next).next == old(next.next)
    {
      if newNext != null {
        if newNext == this {
          return Fail(SELF_AS_NEXT);
        }
        if newNext.parent != null {
          return Fail(NEXT_HAS_PARENT);
        }
        newNext.parent := this;
      }
      if next != null {
        next.parent := null;
      }
      next := newNext;
      return Pass;
    }

    /**
     * getRoot: follows the parent links up to a text without a parent. The
     * chain of ancestors, which ends, is given as a ghost argument.
     */
    method GetRoot(ghost ancestors: seq<Text>) returns (root: Text)
      requires ParentChain(this, ancestors)
      ensures root.parent == null && root == ancestors[|ancestors| - 1]
    {
      var text := this;
      var i := 0;
      while text.parent != null
        invariant 0 <= i < |ancestors| && text == ancestors[i]
        invariant i < |ancestors| - 1 ==> text.parent == ancestors[i + 1]
        decreases |ancestors| - i
      {
        text := text.parent;
        i := i + 1;
      }
      return text;
    }
  }

  /** The texts met from t by following parent links, up to one without a parent. */
  ghost predicate ParentChain(t: Text, ancestors: seq<Text>)
    reads set i | 0 <= i < |ancestors| :: ancestors[i]
  {
    |ancestors| > 0 && ancestors[0] == t && ancestors[|ancestors| - 1].parent == null &&
    forall i :: 0 <= i < |ancestors| - 1 ==> ancestors[i].parent == ancestors[i + 1]
  }

  // ---------------------------------------------------------------------
  // Traversals of a text, on the tree its child and next links describe

  /**
   * A text: the text its own kind contributes (empty for the base class),
   * whether its own kind is plain text, and its optional child and next.
   */
  datatype TextTree = TextTree(ownText: string, ownPlain: bool, child: Option<TextTree>, next: Option<TextTree>)

  /** isPlainText: this text and every present child and next are plain text. */
  predicate IsPlainText(t: TextTree)
    decreases t
  {
    t.ownPlain &&
    (t.child.None? || IsPlainText(t.child.value)) &&
    (t.next.None? || IsPlainText(t.next.value))
  }

  /** isPlainTextEmpty: this text and every present child and next have empty plain text. */
  predicate IsPlainTextEmpty(t: TextTree)
    decreases t
  {
    t.ownText == "" &&
    (t.child.None? || IsPlainTextEmpty(t.child.value)) &&
    (t.next.None? || IsPlainTextEmpty(t.next.value))
  }

  /** The plain text: the text's own, then its child's, then its next's. */
  function PlainText(t: TextTree): string
    decreases t
  {
    t.ownText +
    (if t.child.Some? then PlainText(t.child.value) else "") +
    (if t.next.Some? then PlainText(t.next.value) else "")
  }

  /** appendPlainText: appends the text's own text, then its child's, then its next's. */
  method AppendPlainText(t: TextTree, builder: string) returns (result: string)
    ensures result == builder + PlainText(t)
    decreases t
  {
    result := builder + t.ownText;
    if t.child.Some? {
      result := AppendPlainText(t.child.value, result);
    }
    if t.next.Some? {
      result := AppendPlainText(t.next.value, result);
    }
  }

  /** A text's plain text is empty exactly when it and all its children and nexts contribute nothing. */
  lemma {:induction false} PlainTextEmptyIff(t: TextTree)
    ensures IsPlainTextEmpty(t) <==> PlainText(t) == ""
    decreases t
  {
    if t.child.Some? {
      PlainTextEmptyIff(t.child.value);
    }
    if t.next.Some? {
      PlainTextEmptyIff(t.next.value);
    }
  }

  /** A text is plain exactly when no text in it is of a non-plain kind. */
  lemma {:induction false} PlainTextIffAllPlain(t: TextTree)
    ensures IsPlainText(t) <==> forall s :: s in Texts(t) ==> s.ownPlain
    decreases t
  {
    if t.child.Some? {
      PlainTextIffAllPlain(t.child.value);
    }
    if t.next.Some? {
      PlainTextIffAllPlain(t.next.value);
    }
  }

  /** All texts reachable from t through child and next links, t included. */
  function Texts(t: TextTree): set<TextTree>
    decreases t
  {
    {t} +
    (if t.child.Some? then Texts(t.child.value) else {}) +
    (if t.next.Some? then Texts(t.next.value) else {})
  }
}
