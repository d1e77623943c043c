/** The conversation log of the chat page: an ordered sequence of turns. */
module Messages {

  /** Who wrote a turn. */
  datatype Sender = User | Assistant

  /** One turn of the conversation. */
  datatype Message = Message(sender: Sender, content: string)

  /** `later` is `earlier` grown only by appending turns and by appending text
      to existing turns: no turn is removed, reordered, re-attributed or shortened. */
  ghost predicate Extends(earlier: seq<Message>, later: seq<Message>)
  {
    && |earlier| <= |later|
    && forall i | 0 <= i < |earlier| ::
         later[i].sender == earlier[i].sender && earlier[i].content <= later[i].content
  }

  lemma ExtendsReflexive(log: seq<Message>)
    ensures Extends(log, log)
  {
  }

  lemma ExtendsTransitive(a: seq<Message>, b: seq<Message>, c: seq<Message>)
    requires Extends(a, b) && Extends(b, c)
    ensures Extends(a, c)
  {
    forall i | 0 <= i < |a|
      ensures c[i].sender == a[i].sender && a[i].content <= c[i].content
    {
      PrefixTransitive(a[i].content, b[i].content, c[i].content);
    }
  }

  lemma PrefixTransitive(x: string, y: string, z: string)
    requires x <= y && y <= z
    ensures x <= z
  {
    assert z[..|x|] == y[..|x|];
  }

}
