/** The state both client-side guards (`InstanciaAuthCheck`, `MedicoAuthCheck`) keep:
    whether access was granted, whether the check is still pending, and where the router
    was sent. Children are rendered only once access is granted. */
module AuthGate {
  import opened Text

  /** What the guard renders. */
  datatype Tela = Verificando | Nada | Filhos

  class Gate {
    var isAutenticado: bool
    var isLoading: bool
    /** The last `router.push` target, if any. */
    var destino: Option<string>

    /** Granting is the only way out of loading, and a guard that redirected never granted. */
    predicate Valid()
      reads this
    {
      (isAutenticado <==> !isLoading) && (destino.Some? ==> !isAutenticado)
    }

    constructor()
      ensures Valid() && !isAutenticado && isLoading && destino == None
    {
      isAutenticado, isLoading, destino := false, true, None;
    }

    /** `setIsAutenticado(true); setIsLoading(false)`. */
    method Conceder()
      requires Valid() && destino == None
      modifies this
      ensures Valid() && isAutenticado && !isLoading && destino == None
    {
      isAutenticado := true;
      isLoading := false;
    }

    /** `router.push(destino)`, leaving the guard in its loading state. */
    method Negar(para: string)
      requires Valid() && !isAutenticado
      modifies this
      ensures Valid() && !isAutenticado && isLoading == old(isLoading) && destino == Some(para)
    {
      destino := Some(para);
    }

    /** The render: the loading text while pending, nothing when denied, else the children. */
    function Exibe(): (t: Tela)
      reads this
      ensures t == Filhos <==> !isLoading && isAutenticado
      ensures Valid() ==> (t == Filhos <==> isAutenticado) && (t == Verificando <==> !isAutenticado)
    {
      if isLoading then Verificando
      else if !isAutenticado then Nada
      else Filhos
    }
  }
}
