/** A token source in place: the refresh flag, the last error, and the file it shares. What the AWS calls
    and the file system answered is passed in. */
module TokenSource {
  import opened Wrappers
  import opened CacheFormat

  /** The shared file, and the temporary file of a write under way beside it. */
  class CacheFile {
    var content: Option<string>
    var temp: Option<string>

    constructor ()
      ensures content.None? && temp.None?
    {
      content, temp := None, None;
    }
  }

  /** What the file system answers to each step of a write; a failed write may leave part of the text. */
  datatype WriteReplies = WriteReplies(mkdir: bool, create: bool, chmod: bool, write: bool, partial: string,
                                       close: bool, rename: bool)

  predicate Succeeds(r: WriteReplies) {
    r.mkdir && r.create && r.chmod && r.write && r.close && r.rename
  }

  const EMPTY_TOKEN := "STS returned an empty web identity token"

  class TokenSource {
    const codec: Codec
    const audience: string
    const refreshBefore: int
    const file: CacheFile?
    var refreshing: bool
    var lastErr: Option<string>

    constructor (codec: Codec, audience: string, refreshBefore: int, file: CacheFile?)
      ensures !refreshing && lastErr.None?
      ensures this.codec == codec && this.audience == audience
      ensures this.refreshBefore == refreshBefore && this.file == file
    {
      this.codec, this.audience, this.refreshBefore, this.file := codec, audience, refreshBefore, file;
      refreshing, lastErr := false, None;
    }

    /** The shared file yields this token to this caller, until that instant. Nothing does when caching is off
        or nothing was resolved. */
    ghost predicate IsHit(pinned: Option<string>, now: int, token: string, until: int)
      reads this, file
    {
      && file != null && pinned.Some? && file.content.Some? && codec.unmarshal(file.content.value).Some?
      && Yields(codec, codec.unmarshal(file.content.value).value, pinned.value, audience, now, token, until)
    }

    ghost predicate IsMiss(pinned: Option<string>, now: int)
      reads this, file
    {
      forall token, until :: !IsHit(pinned, now, token, until)
    }

    lemma ReadMeans(credID: string, now: int)
      requires file != null
      ensures var r := Lookup(codec, file.content, credID, audience, now);
              && (r.None? ==> IsMiss(Some(credID), now))
              && (r.Some? ==> forall token, until ::
                    IsHit(Some(credID), now, token, until) <==> token == r.value.0 && until == r.value.1)
    {
      forall token, until
        ensures IsHit(Some(credID), now, token, until) <==>
                Lookup(codec, file.content, credID, audience, now) == Some((token, until))
      {
        HitMeans(codec, file.content, credID, audience, now, token, until);
      }
    }

    /** Any problem is a miss. */
    method ReadCache(credID: string, now: int) returns (hit: Option<(string, int)>)
      requires file != null
      ensures hit == Lookup(codec, file.content, credID, audience, now)
      ensures hit.Some? ==> forall token, until ::
                IsHit(Some(credID), now, token, until) <==> token == hit.value.0 && until == hit.value.1
      ensures hit.None? ==> IsMiss(Some(credID), now)
    {
      ReadMeans(credID, now);
      if file.content.None? {
        return None;
      }
      var entry := codec.unmarshal(file.content.value);
      if entry.None? {
        return None;
      }
      if entry.value.version != CACHE_VERSION || entry.value.credential != credID {
        return None;
      }
      var tok := TrimSpace(entry.value.token);
      if tok == "" {
        return None;
      }
      var judged := UnverifiedExpiryAudience(codec, tok);
      if judged.None? || now >= ExpiryTime(judged.value.0) || audience !in judged.value.1 {
        return None;
      }
      return Some((tok, ExpiryTime(judged.value.0)));
    }

    /** Best effort: unless every step succeeds the file keeps what it held, and no temporary file stays. */
    method WriteCache(token: string, credID: string, replies: WriteReplies)
      requires file != null
      modifies file
      ensures file.content == AfterWrite(codec, old(file.content), credID, token, Succeeds(replies))
      ensures file.temp == if replies.mkdir && replies.create then None else old(file.temp)
    {
      var data := codec.marshal(Envelope(credID, token));
      if !replies.mkdir {
        return;
      }
      if !replies.create {
        return;
      }
      file.temp := Some("");
      if !replies.chmod {
        file.temp := None;
        return;
      }
      file.temp := Some(if replies.write then data else replies.partial);
      if !replies.write {
        file.temp := None;
        return;
      }
      if !replies.close {
        file.temp := None;
        return;
      }
      if replies.rename {
        file.content := file.temp;
      }
      file.temp := None;
    }

    /** The locked section that admits at most one background refresh. */
    method BeginRefresh() returns (started: bool)
      modifies this`refreshing
      ensures started == !old(refreshing) && refreshing
    {
      if refreshing {
        return false;
      }
      refreshing := true;
      return true;
    }

    /** The background refresh, with no one else at the file: whatever exit it takes, the flag is down at the end. */
    method BackgroundRefresh(pinned: Result<string, string>, minted: Result<string, string>, replies: WriteReplies)
      requires refreshing && file != null
      modifies this, file
      ensures !refreshing
      ensures pinned.Err? ==> lastErr == Some(pinned.error) && file.content == old(file.content)
      ensures pinned.Ok? && (minted.Err? || minted.value == "") ==>
                && lastErr == Some(if minted.Err? then minted.error else EMPTY_TOKEN)
                && file.content == old(file.content)
      ensures pinned.Ok? && minted.Ok? && minted.value != "" ==>
                && lastErr.None?
                && file.content == AfterWrite(codec, old(file.content), pinned.value, minted.value, Succeeds(replies))
    {
      if pinned.Err? {
        lastErr := Some(pinned.error);
      } else {
        var tok := Mint(minted);
        lastErr := if tok.Err? then Some(tok.error) else None;
        if tok.Ok? {
          WriteCache(tok.value, pinned.value, replies);
        }
      }
      refreshing := false;
    }

    /** A token that is handed out is never empty and is the one of the reply. */
    method Mint(reply: Result<string, string>) returns (token: Result<string, string>)
      ensures token.Ok? ==> token.value != "" && token == reply
      ensures token.Err? ==> token == reply || (reply == Ok("") && token.error == EMPTY_TOKEN)
    {
      if reply.Ok? && reply.value == "" {
        return Err(EMPTY_TOKEN);
      }
      return reply;
    }

    /** Token: the credentials are resolved once (`pinned`); `readAt` and `decideAt` are the clock at the
        expiry test and at the refresh test; `spawned` says that a background refresh was started. */
    method Token(pinned: Option<string>, readAt: int, decideAt: int, reply: Result<string, string>,
                 replies: WriteReplies)
      returns (token: Result<string, string>, spawned: bool)
      modifies this`refreshing, file
      ensures forall tok, until :: old(IsHit(pinned, readAt, tok, until)) ==>
                && token == Ok(tok) && unchanged(file)
                && spawned == (until - decideAt < refreshBefore && !old(refreshing))
      ensures old(IsMiss(pinned, readAt)) ==>
                && token == (if reply.Ok? && reply.value == "" then Err(EMPTY_TOKEN) else reply) && !spawned
      ensures old(IsMiss(pinned, readAt)) && file != null && pinned.Some? && token.Ok? ==>
                file.content == AfterWrite(codec, old(file.content), pinned.value, token.value, Succeeds(replies))
      ensures file != null && (pinned.None? || token.Err?) ==> unchanged(file)
      ensures refreshing == (old(refreshing) || spawned)
    {
      spawned := false;
      if file != null && pinned.Some? {
        ReadMeans(pinned.value, readAt);
        var hit := ReadCache(pinned.value, readAt);
        assert hit.Some? ==> old(IsHit(pinned, readAt, hit.value.0, hit.value.1));
        if hit.Some? {
          if hit.value.1 - decideAt < refreshBefore {
            spawned := BeginRefresh();
          }
          return Ok(hit.value.0), spawned;
        }
      }
      token := Mint(reply);
      if token.Ok? && file != null && pinned.Some? {
        WriteCache(token.value, pinned.value, replies);
      }
    }
  }
}
