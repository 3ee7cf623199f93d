/**
The message token iterator (crates/core/parser/src/lib.rs:39-110): code spans and
escapes are resolved on the token list the lexer produces.
*/
module MessageParser {
  import opened Sequences

  type Id = string

  datatype Token =
    | Escape
    | Marker(ticks: nat)
    | UserMention(user: Id)
    | RoleMention(role: Id)
    | ChannelMention(channel: Id)
    | Emoji(emoji: Id)
    | MentionEveryone
    | MentionOnline

  /** The first position of `t`, or the length when it does not occur. */
  function IndexOf(tokens: seq<Token>, t: Token): (i: nat)
    ensures i <= |tokens|
    ensures i < |tokens| ==> tokens[i] == t
    ensures forall j :: 0 <= j < i ==> tokens[j] != t
  {
    if tokens == [] || tokens[0] == t then 0 else 1 + IndexOf(tokens[1..], t)
  }

  /** What the iterator yields for the item `tokens` starts with. */
  function Head(tokens: seq<Token>): (r: seq<Token>)
    requires tokens != []
  {
    var first := tokens[0];
    if !first.Marker? then [first]
    else if first in tokens[1..] then [first, first]
    else tokens
  }

  /** What is left after that item. */
  function Rest(tokens: seq<Token>): (r: seq<Token>)
    requires tokens != []
    ensures |r| < |tokens|
  {
    var first, rest := tokens[0], tokens[1..];
    if first.Escape? then if rest == [] then [] else rest[1..]
    else if !first.Marker? then rest
    else if first in rest then rest[IndexOf(rest, first) + 1..]
    else []
  }

  /**
  What the iterator yields: a closed span as its two markers, an escape without the
  token after it, an unclosed marker followed by everything after it, raw.
  */
  function Parse(tokens: seq<Token>): (r: seq<Token>)
    decreases |tokens|
  {
    if tokens == [] then [] else Head(tokens) + Parse(Rest(tokens))
  }

  datatype Results = Results(
    users: set<Id>, roles: set<Id>, channels: set<Id>, emojis: set<Id>, everyone: bool, online: bool)

  /** The mentions a list of tokens names. */
  ghost function Names(tokens: seq<Token>): Results
  {
    Results(set t | t in tokens && t.UserMention? :: t.user,
            set t | t in tokens && t.RoleMention? :: t.role,
            set t | t in tokens && t.ChannelMention? :: t.channel,
            set t | t in tokens && t.Emoji? :: t.emoji,
            MentionEveryone in tokens, MentionOnline in tokens)
  }

  /** A token that is neither an escape nor a marker is yielded as it is. */
  lemma PlainIsYielded(token: Token, after: seq<Token>)
    requires !token.Escape? && !token.Marker?
    ensures Parse([token] + after) == [token] + Parse(after)
  {
    var tokens := [token] + after;
    assert tokens[1..] == after;
  }

  /** An escape at the very end drops nothing. */
  lemma TrailingEscape()
    ensures Parse([Escape]) == [Escape]
  {
    var tokens := [Escape];
    assert Rest(tokens) == [] && Head(tokens) == [Escape];
  }

  lemma NothingBefore(s: seq<Token>)
    ensures [] + s == s
  {
  }

  lemma Shift(s: seq<Token>, t: seq<Token>)
    requires s != []
    ensures s + t == [s[0]] + (s[1..] + t)
  {
  }

  lemma FoundAt(tokens: seq<Token>, t: Token, i: nat)
    requires i < |tokens| && tokens[i] == t && t !in tokens[..i]
    ensures IndexOf(tokens, t) == i
  {
    assert forall j :: 0 <= j < i ==> tokens[..i][j] == tokens[j];
  }

  // ----- the iterator -----

  class MessageParserIterator {
    var inner: seq<Token>
    var temp: seq<Token>

    constructor (tokens: seq<Token>)
      ensures inner == tokens && temp == []
    {
      inner, temp := tokens, [];
    }

    /** What is still to come. */
    ghost function Pending(): seq<Token>
      reads this
    {
      temp + Parse(inner)
    }

    /** `next`. A non-empty queue is a closing marker, or the raw rest after an unclosed one. */
    method Next() returns (token: Option<Token>)
      modifies this
      ensures token.None? ==> old(Pending()) == [] && Pending() == []
      ensures token.Some? ==> old(Pending()) == [token.value] + Pending() && |temp| + |inner| < old(|temp| + |inner|)
    {
      if temp != [] {
        token := Some(temp[0]);
        Shift(temp, Parse(inner));
        temp := temp[1..];
        return;
      }
      if inner == [] { return None; }
      NothingBefore(Parse(inner));
      token := Some(inner[0]);
      ghost var tokens := inner;
      if !inner[0].Marker? {
        inner := if inner[0].Escape? && |inner| > 1 then inner[2..] else inner[1..];
        assert inner == Rest(tokens);
        NothingBefore(Parse(inner));
      } else {
        FindClosing();
        Shift(Head(tokens), Parse(inner));
      }
    }

    /** The loop over the tokens after an opening marker: stops at its closing marker or at the end. */
    method FindClosing()
      requires temp == [] && inner != [] && inner[0].Marker?
      modifies this
      ensures temp == Head(old(inner))[1..] && inner == Rest(old(inner))
      ensures |temp| + |inner| < old(|inner|)
    {
      var marker := inner[0];
      inner := inner[1..];
      ghost var rest := inner;
      while inner != []
        invariant |temp| + |inner| == |rest| && temp == rest[..|temp|] && inner == rest[|temp|..]
        invariant marker !in temp
        decreases |inner|
      {
        var next := inner[0];
        assert next == rest[|temp|];
        inner := inner[1..];
        if next == marker {
          FoundAt(rest, marker, |temp|);
          temp := [marker];
          return;
        }
        temp := temp + [next];
      }
      assert temp == rest;
    }
  }

  /** `parse_message_iter(..).collect()`. */
  method Collect(tokens: seq<Token>) returns (result: seq<Token>)
    ensures result == Parse(tokens)
  {
    var iter := new MessageParserIterator(tokens);
    NothingBefore(Parse(tokens));
    result := [];
    while true
      invariant result + iter.Pending() == Parse(tokens)
      decreases |iter.temp| + |iter.inner|
    {
      ghost var left := iter.Pending();
      var token := iter.Next();
      if token.None? { return; }
      assert result + left == result + [token.value] + iter.Pending();
      result := result + [token.value];
    }
  }

  /** `parse_message`, on the tokens of the text. */
  method ParseMessage(tokens: seq<Token>) returns (r: Results)
    ensures r == Names(Parse(tokens))
    ensures forall id :: id in r.users <==> UserMention(id) in Parse(tokens)
    ensures forall id :: id in r.roles <==> RoleMention(id) in Parse(tokens)
    ensures forall id :: id in r.channels <==> ChannelMention(id) in Parse(tokens)
    ensures forall id :: id in r.emojis <==> Emoji(id) in Parse(tokens)
    ensures (r.everyone <==> MentionEveryone in Parse(tokens)) && (r.online <==> MentionOnline in Parse(tokens))
  {
    var found := Collect(tokens);
    r := Gather(found);
    NamesMeans(found);
  }

  /** The loop that fills the results. */
  method Gather(found: seq<Token>) returns (r: Results)
    ensures r == Names(found)
  {
    r := Results({}, {}, {}, {}, false, false);
    for i := 0 to |found|
      invariant r == Names(found[..i])
    {
      NamesSnoc(found, i);
      match found[i] {
        case UserMention(id) => r := r.(users := r.users + {id});
        case RoleMention(id) => r := r.(roles := r.roles + {id});
        case ChannelMention(id) => r := r.(channels := r.channels + {id});
        case Emoji(id) => r := r.(emojis := r.emojis + {id});
        case MentionEveryone => r := r.(everyone := true);
        case MentionOnline => r := r.(online := true);
        case Escape =>
        case Marker(_) =>
      }
    }
    assert found[..|found|] == found;
  }

  lemma NamesMeans(tokens: seq<Token>)
    ensures forall id :: id in Names(tokens).users <==> UserMention(id) in tokens
    ensures forall id :: id in Names(tokens).roles <==> RoleMention(id) in tokens
    ensures forall id :: id in Names(tokens).channels <==> ChannelMention(id) in tokens
    ensures forall id :: id in Names(tokens).emojis <==> Emoji(id) in tokens
  {
    forall id ensures id in Names(tokens).users <==> UserMention(id) in tokens { }
    forall id ensures id in Names(tokens).roles <==> RoleMention(id) in tokens { }
    forall id ensures id in Names(tokens).channels <==> ChannelMention(id) in tokens { }
    forall id ensures id in Names(tokens).emojis <==> Emoji(id) in tokens { }
  }

  /** One more token and the mention it adds. */
  lemma NamesSnoc(tokens: seq<Token>, i: nat)
    requires i < |tokens|
    ensures var r, t := Names(tokens[..i]), tokens[i];
      Names(tokens[..i + 1]) ==
        Results(r.users + (if t.UserMention? then {t.user} else {}),
                r.roles + (if t.RoleMention? then {t.role} else {}),
                r.channels + (if t.ChannelMention? then {t.channel} else {}),
                r.emojis + (if t.Emoji? then {t.emoji} else {}),
                r.everyone || t.MentionEveryone?, r.online || t.MentionOnline?)
  {
    assert tokens[..i + 1] == tokens[..i] + [tokens[i]];
  }

  // ----- what is hidden and what is not -----

  /** The item `tokens` starts with does not reach into what follows: a marker is closed, an escape has its token. */
  predicate Complete(tokens: seq<Token>)
    requires tokens != []
  {
    var first := tokens[0];
    (first.Escape? ==> |tokens| > 1) && (first.Marker? ==> first in tokens[1..])
  }

  /** Nor does any later item. */
  ghost predicate Settled(tokens: seq<Token>)
    decreases |tokens|
  {
    tokens == [] || (Complete(tokens) && Settled(Rest(tokens)))
  }

  lemma {:induction false} IndexOfConcat(a: seq<Token>, b: seq<Token>, t: Token)
    ensures t in a ==> IndexOf(a + b, t) == IndexOf(a, t)
    ensures t !in a ==> IndexOf(a + b, t) == |a| + IndexOf(b, t)
  {
    if a == [] {
      assert a + b == b;
    } else if a[0] != t {
      assert (a + b)[1..] == a[1..] + b;
      IndexOfConcat(a[1..], b, t);
    }
  }

  /** A complete item is yielded the same whatever follows. */
  lemma ItemConcat(a: seq<Token>, b: seq<Token>)
    requires a != [] && Complete(a)
    ensures Head(a + b) == Head(a) && Rest(a + b) == Rest(a) + b
  {
    var first, rest := a[0], a[1..];
    assert (a + b)[1..] == rest + b;
    if first.Marker? {
      IndexOfConcat(rest, b, first);
      assert (rest + b)[IndexOf(rest, first) + 1..] == rest[IndexOf(rest, first) + 1..] + b;
    }
  }

  lemma Regroup(x: seq<Token>, y: seq<Token>, z: seq<Token>)
    ensures x + (y + z) == x + y + z
  {
  }

  /** A settled beginning is parsed on its own. */
  lemma {:induction false} ParseConcat(a: seq<Token>, b: seq<Token>)
    requires Settled(a)
    ensures Parse(a + b) == Parse(a) + Parse(b)
    decreases |a|
  {
    if a == [] {
      assert a + b == b;
      NothingBefore(Parse(b));
    } else {
      ItemConcat(a, b);
      ParseConcat(Rest(a), b);
      Regroup(Head(a), Parse(Rest(a)), Parse(b));
    }
  }

  lemma ParseSpan(marker: Token, inside: seq<Token>, after: seq<Token>)
    requires marker.Marker? && marker !in inside
    ensures Parse([marker] + inside + [marker] + after) == [marker, marker] + Parse(after)
  {
    var span := [marker] + inside + [marker] + after;
    assert span[1..] == inside + ([marker] + after);
    SpanItem(marker, inside, after, span);
  }

  lemma SpanItem(marker: Token, inside: seq<Token>, after: seq<Token>, span: seq<Token>)
    requires marker.Marker? && marker !in inside
    requires span != [] && span[0] == marker && span[1..] == inside + ([marker] + after)
    ensures Head(span) == [marker, marker] && Rest(span) == after
  {
    var rest := inside + ([marker] + after);
    assert rest[|inside|] == marker && rest[..|inside|] == inside;
    FoundAt(rest, marker, |inside|);
    assert rest[|inside| + 1..] == after;
  }

  /** A span closed at this level contributes only its two markers, whatever it contains. */
  lemma ClosedSpanIsHidden(before: seq<Token>, marker: Token, inside: seq<Token>, after: seq<Token>)
    requires Settled(before) && marker.Marker? && marker !in inside
    ensures Parse(before + ([marker] + inside + [marker] + after)) == Parse(before) + ([marker, marker] + Parse(after))
  {
    ParseConcat(before, [marker] + inside + [marker] + after);
    ParseSpan(marker, inside, after);
  }

  lemma ParseEscaped(token: Token, after: seq<Token>)
    ensures Parse([Escape, token] + after) == [Escape] + Parse(after)
  {
    var tokens := [Escape, token] + after;
    assert tokens[1..][1..] == after;
    assert Head(tokens) == [Escape] && Rest(tokens) == after;
  }

  /** An escaped token is dropped. */
  lemma EscapedIsHidden(before: seq<Token>, token: Token, after: seq<Token>)
    requires Settled(before)
    ensures Parse(before + ([Escape, token] + after)) == Parse(before) + ([Escape] + Parse(after))
  {
    ParseConcat(before, [Escape, token] + after);
    ParseEscaped(token, after);
  }

  lemma ParseUnclosed(marker: Token, rest: seq<Token>)
    requires marker.Marker? && marker !in rest
    ensures Parse([marker] + rest) == [marker] + rest
  {
    var tokens := [marker] + rest;
    assert tokens[1..] == rest;
    assert Head(tokens) == tokens && Rest(tokens) == [] && tokens + [] == tokens;
  }

  /** After an unclosed marker everything is raw, closed spans and escapes included. */
  lemma UnclosedMarkerIsRaw(before: seq<Token>, marker: Token, rest: seq<Token>)
    requires Settled(before) && marker.Marker? && marker !in rest
    ensures Parse(before + ([marker] + rest)) == Parse(before) + ([marker] + rest)
  {
    ParseConcat(before, [marker] + rest);
    ParseUnclosed(marker, rest);
  }

  /** Markers name nothing. */
  lemma MarkersNameNothing(before: seq<Token>, marker: Token, after: seq<Token>)
    requires marker.Marker?
    ensures Names(before + ([marker, marker] + after)) == Names(before + after)
  {
    var spaced, joined := before + ([marker, marker] + after), before + after;
    SameMentions(spaced, joined, marker);
  }

  lemma SameMentions(spaced: seq<Token>, joined: seq<Token>, marker: Token)
    requires marker.Marker? && forall t :: t in spaced <==> t in joined || t == marker
    ensures Names(spaced) == Names(joined)
  {
  }

  /** No mention inside a closed span is reported: the results are those of the text around it. */
  lemma NoMentionFromClosedSpan(before: seq<Token>, marker: Token, inside: seq<Token>, after: seq<Token>)
    requires Settled(before) && marker.Marker? && marker !in inside
    ensures Names(Parse(before + ([marker] + inside + [marker] + after))) == Names(Parse(before) + Parse(after))
  {
    ClosedSpanIsHidden(before, marker, inside, after);
    MarkersNameNothing(Parse(before), marker, Parse(after));
  }
}
