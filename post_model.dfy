/** models/Post.js: the Post document, its `content` getter and setter, and its `pre('save')` hook. */
module PostModel {
  import opened Base

  datatype Post = Post(
    user: UserId,
    content: string,          // the stored form, as the setter leaves it
    image: Option<string>,
    likes: seq<LikeId>,
    likesCount: int,
    comments: seq<CommentId>,
    commentsCount: int)

  /** U+00A0, NO-BREAK SPACE. */
  const NBSP: char := '\U{00A0}'

  /** The `content` setter: every ASCII space becomes a no-break space. */
  function SetContent(s: string): (t: string)
    ensures |t| == |s|
    ensures ' ' !in t
    ensures forall i :: 0 <= i < |s| ==> t[i] == (if s[i] == ' ' then NBSP else s[i])
  {
    if s == [] then [] else [if s[0] == ' ' then NBSP else s[0]] + SetContent(s[1..])
  }

  /** The `content` getter: every no-break space reads back as an ASCII space. */
  function GetContent(t: string): (s: string)
    ensures |s| == |t|
    ensures NBSP !in s
    ensures forall i :: 0 <= i < |t| ==> s[i] == (if t[i] == NBSP then ' ' else t[i])
  {
    if t == [] then [] else [if t[0] == NBSP then ' ' else t[0]] + GetContent(t[1..])
  }

  /** Reading back what was written gives the original text, unless it already held no-break spaces. */
  lemma GetAfterSet(s: string)
    requires NBSP !in s
    ensures GetContent(SetContent(s)) == s
  {
    var t := SetContent(s);
    forall i | 0 <= i < |s| ensures GetContent(t)[i] == s[i] {
      assert s[i] != NBSP;
    }
  }

  /** Writing back what was read gives the stored text, so `post.content = post.content` is stable. */
  lemma SetAfterGet(t: string)
    requires ' ' !in t
    ensures SetContent(GetContent(t)) == t
  {
    var s := GetContent(t);
    forall i | 0 <= i < |t| ensures SetContent(s)[i] == t[i] {
      assert t[i] != ' ';
    }
  }

  /** The counters agree with the arrays they count. */
  predicate Counted(p: Post) {
    p.likesCount == |p.likes| && p.commentsCount == |p.comments|
  }

  /** The `pre('save')` hook: both counters are recomputed from their arrays, nothing else changes. */
  function Saved(p: Post): (r: Post)
    ensures Counted(r)
    ensures r.(likesCount := p.likesCount, commentsCount := p.commentsCount) == p
  {
    p.(likesCount := |p.likes|, commentsCount := |p.comments|)
  }

  /** `Post.create({content, image, user})`: schema defaults, the content setter, then the save hook. */
  function Created(user: UserId, content: string, image: Option<string>): (p: Post)
    ensures p.user == user && p.image == image
    ensures p.content == SetContent(content) && ' ' !in p.content
    ensures p.likes == [] && p.comments == [] && p.likesCount == 0 && p.commentsCount == 0
  {
    Saved(Post(user, SetContent(content), image, [], 0, [], 0))
  }
}
