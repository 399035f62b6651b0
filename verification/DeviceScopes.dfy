/**
 The scope check of the device endpoint: a substring test on the list of the client's scopes as one text.
 */
module DeviceScopes {
  import opened Wrappers
  import opened DeviceGrant
  import Text

  /** The scopes that the client is registered for. */
  function Registered(client: Client): seq<string> {
    Text.Split(client.scopes, ',')
  }

  predicate PartOfRegistered(client: Client, part: string) {
    exists k :: 0 <= k < |Registered(client)| && Text.Contains(Registered(client)[k], part)
  }

  lemma PartContained(client: Client, part: string)
    requires ',' !in part
    ensures Text.Contains(client.scopes, part) <==> PartOfRegistered(client, part)
  {
    hide Text.Contains, Text.Split, Text.Join;
    Text.JoinOfSplit(client.scopes, ',');
    Text.ContainedInJoin(Registered(client), ',', part);
  }

  /** For a request without commas the check asks only that every part is contained in some registered scope. */
  lemma FragmentsAreAllowed(client: Client, text: string)
    requires ',' !in text
    ensures ScopesAllowed(client, Some(text)) <==>
              forall part :: part in Text.Split(text, ' ') ==> PartOfRegistered(client, part)
  {
    hide Text.Contains, Text.Split, PartOfRegistered;
    Text.PartsHaveNoOtherChars(text, ' ', ',');
    forall part | part in Text.Split(text, ' ')
      ensures Text.Contains(client.scopes, part) <==> PartOfRegistered(client, part)
    {
      PartContained(client, part);
    }
  }

  predicate AllRegistered(client: Client, text: string) {
    forall part :: part in Text.Split(text, ' ') ==> part in Registered(client)
  }

  /** Texts as the request validation lets them through, without empty parts. */
  predicate Proper(text: string) {
    ',' !in text && "" !in Text.Split(text, ' ')
  }

  /** Something that can be requested, is contained in a registered scope, and is not registered itself. */
  predicate UnregisteredFragment(client: Client, part: string) {
    part != "" && ' ' !in part && PartOfRegistered(client, part) && part !in Registered(client)
  }

  lemma CharsOfContained(text: string, part: string, c: char)
    requires Text.Contains(text, part) && c !in text
    ensures c !in part
  {
    var i :| 0 <= i <= |text| && Text.OccursAt(text, part, i);
    assert forall k :: 0 <= k < |part| ==> part[k] == text[i..i + |part|][k] == text[i + k];
  }

  lemma FragmentHasNoComma(client: Client, part: string)
    requires PartOfRegistered(client, part)
    ensures ',' !in part
  {
    hide Text.Split;
    Text.JoinOfSplit(client.scopes, ',');
    var k :| 0 <= k < |Registered(client)| && Text.Contains(Registered(client)[k], part);
    CharsOfContained(Registered(client)[k], part, ',');
  }

  /** Every such fragment passes the check. */
  lemma UnregisteredFragmentPasses(client: Client, part: string)
    requires UnregisteredFragment(client, part)
    ensures Proper(part) && ScopesAllowed(client, Some(part)) && !AllRegistered(client, part)
  {
    hide PartOfRegistered, Registered, Text.Contains;
    FragmentHasNoComma(client, part);
    PartContained(client, part);
    Text.SplitWithoutSeparator(part, ' ');
    hide Text.Split;
    assert part in Text.Split(part, ' ');
  }

  /**
   The check lets registered scopes through only exactly for a client whose registered scopes have no
   unregistered fragment.
   */
  lemma ScopeCheckExactIff(client: Client)
    ensures (forall text :: Proper(text) && ScopesAllowed(client, Some(text)) ==> AllRegistered(client, text))
       <==> (forall part :: !UnregisteredFragment(client, part))
  {
    hide PartOfRegistered, Registered, Text.Contains, Text.Split;
    if part :| UnregisteredFragment(client, part) {
      UnregisteredFragmentPasses(client, part);
    } else {
      forall text | Proper(text) && ScopesAllowed(client, Some(text)) ensures AllRegistered(client, text) {
        FragmentsAreAllowed(client, text);
        Text.JoinOfSplit(text, ' ');
        forall part | part in Text.Split(text, ' ') ensures part in Registered(client) {
          assert !UnregisteredFragment(client, part);
        }
      }
    }
  }
}
